/** The libxml input callbacks of XmlValidator.cpp that serve the embedded
    schemas: `xsd_match` claims every URI under "schemas/", `xsd_open` looks the
    URI up in a fixed table of eighteen entries and unpacks the schema,
    `xsd_read` copies the next chunk into libxml's buffer and `xsd_close` ends
    the stream. The two cursors `rlen` (bytes left) and `plen` (bytes consumed)
    are process-wide, so they are the fields of one `InputCallbacks` object. */
module SchemaInput {
  import opened Text

  /** The embedded schemas of Schemas.h (ISO 15118-2, ISO 15118-20, DIN 70121,
      SupportedAppProtocol and the W3C XML-Signature core schema). */
  datatype SchemaId =
    | Sap
    | Iso20Dc | Iso20CommonTypes | Iso20Cm | Iso20Acdp | Iso20Ac | Iso20Wpt
    | XmldsigCore
    | Iso2MsgBody | Iso2MsgDataTypes | Iso2MsgDef | Iso2MsgHeader
    | DinMsgBody | DinMsgDataTypes | DinMsgDef | DinMsgHeader

  /** The name of the compressed byte array Schemas.h declares for a schema
      (its length is that name followed by `_zipped_len`). */
  function ArrayName(id: SchemaId): string {
    match id
    case Sap => "XSD_SAP"
    case Iso20Dc => "XSD_ISO20_DC"
    case Iso20CommonTypes => "XSD_ISO20_CommonTypes"
    case Iso20Cm => "XSD_ISO20_CM"
    case Iso20Acdp => "XSD_ISO20_ACDP"
    case Iso20Ac => "XSD_ISO20_AC"
    case Iso20Wpt => "XSD_ISO20_WPT"
    case XmldsigCore => "XSD_XMLDSIG_CORE"
    case Iso2MsgBody => "XSD_ISO2_MsgBody"
    case Iso2MsgDataTypes => "XSD_ISO2_MsgDataTypes"
    case Iso2MsgDef => "XSD_ISO2_MsgDef"
    case Iso2MsgHeader => "XSD_ISO2_MsgHeader"
    case DinMsgBody => "XSD_DIN_MsgBody"
    case DinMsgDataTypes => "XSD_DIN_MsgDataTypes"
    case DinMsgDef => "XSD_DIN_MsgDef"
    case DinMsgHeader => "XSD_DIN_MsgHeader"
  }

  const SchemaDirPrefix := "schemas/"

  /** The URI table of `xsd_open`, tested in the order of its `strcmp` chain. */
  function SchemaForUri(uri: string): (r: Option<SchemaId>)
    ensures r.Some? ==> SchemaDirPrefix <= uri
  {
    if uri == "schemas/common/V2G_CI_AppProtocol.xsd" then Some(Sap)
    else if uri == "schemas/15118-20/V2G_CI_DC.xsd" then Some(Iso20Dc)
    else if uri == "schemas/15118-20/V2G_CI_CommonTypes.xsd" then Some(Iso20CommonTypes)
    else if uri == "schemas/15118-20/V2G_CI_CommonMessages.xsd" then Some(Iso20Cm)
    else if uri == "schemas/15118-20/V2G_CI_ACDP.xsd" then Some(Iso20Acdp)
    else if uri == "schemas/15118-20/V2G_CI_AC.xsd" then Some(Iso20Ac)
    else if uri == "schemas/15118-20/V2G_CI_WPT.xsd" then Some(Iso20Wpt)
    else if uri == "schemas/15118-20/xmldsig-core-schema.xsd" then Some(XmldsigCore)
    else if uri == "schemas/15118-2/V2G_CI_MsgBody.xsd" then Some(Iso2MsgBody)
    else if uri == "schemas/15118-2/V2G_CI_MsgDataTypes.xsd" then Some(Iso2MsgDataTypes)
    else if uri == "schemas/15118-2/V2G_CI_MsgDef.xsd" then Some(Iso2MsgDef)
    else if uri == "schemas/15118-2/V2G_CI_MsgHeader.xsd" then Some(Iso2MsgHeader)
    else if uri == "schemas/15118-2/xmldsig-core-schema.xsd" then Some(XmldsigCore)
    else if uri == "schemas/DIN/V2G_CI_MsgBody.xsd" then Some(DinMsgBody)
    else if uri == "schemas/DIN/V2G_CI_MsgDataTypes.xsd" then Some(DinMsgDataTypes)
    else if uri == "schemas/DIN/V2G_CI_MsgDef.xsd" then Some(DinMsgDef)
    else if uri == "schemas/DIN/V2G_CI_MsgHeader.xsd" then Some(DinMsgHeader)
    else if uri == "schemas/DIN/xmldsig-core-schema.xsd" then Some(XmldsigCore)
    else None
  }

  /** The eighteen URIs `xsd_open` knows. */
  const KnownUris: seq<string> := [
    "schemas/common/V2G_CI_AppProtocol.xsd",
    "schemas/15118-20/V2G_CI_DC.xsd",
    "schemas/15118-20/V2G_CI_CommonTypes.xsd",
    "schemas/15118-20/V2G_CI_CommonMessages.xsd",
    "schemas/15118-20/V2G_CI_ACDP.xsd",
    "schemas/15118-20/V2G_CI_AC.xsd",
    "schemas/15118-20/V2G_CI_WPT.xsd",
    "schemas/15118-20/xmldsig-core-schema.xsd",
    "schemas/15118-2/V2G_CI_MsgBody.xsd",
    "schemas/15118-2/V2G_CI_MsgDataTypes.xsd",
    "schemas/15118-2/V2G_CI_MsgDef.xsd",
    "schemas/15118-2/V2G_CI_MsgHeader.xsd",
    "schemas/15118-2/xmldsig-core-schema.xsd",
    "schemas/DIN/V2G_CI_MsgBody.xsd",
    "schemas/DIN/V2G_CI_MsgDataTypes.xsd",
    "schemas/DIN/V2G_CI_MsgDef.xsd",
    "schemas/DIN/V2G_CI_MsgHeader.xsd",
    "schemas/DIN/xmldsig-core-schema.xsd"
  ]

  /** The XML-Signature schema is reachable from all three standards' folders. */
  const XmldsigUris: set<string> := {
    "schemas/15118-20/xmldsig-core-schema.xsd",
    "schemas/15118-2/xmldsig-core-schema.xsd",
    "schemas/DIN/xmldsig-core-schema.xsd"
  }

  /** The URI under which each schema is first listed in the table. */
  function UriOf(id: SchemaId): (uri: string)
    ensures SchemaDirPrefix <= uri
  {
    match id
    case Sap => "schemas/common/V2G_CI_AppProtocol.xsd"
    case Iso20Dc => "schemas/15118-20/V2G_CI_DC.xsd"
    case Iso20CommonTypes => "schemas/15118-20/V2G_CI_CommonTypes.xsd"
    case Iso20Cm => "schemas/15118-20/V2G_CI_CommonMessages.xsd"
    case Iso20Acdp => "schemas/15118-20/V2G_CI_ACDP.xsd"
    case Iso20Ac => "schemas/15118-20/V2G_CI_AC.xsd"
    case Iso20Wpt => "schemas/15118-20/V2G_CI_WPT.xsd"
    case XmldsigCore => "schemas/15118-20/xmldsig-core-schema.xsd"
    case Iso2MsgBody => "schemas/15118-2/V2G_CI_MsgBody.xsd"
    case Iso2MsgDataTypes => "schemas/15118-2/V2G_CI_MsgDataTypes.xsd"
    case Iso2MsgDef => "schemas/15118-2/V2G_CI_MsgDef.xsd"
    case Iso2MsgHeader => "schemas/15118-2/V2G_CI_MsgHeader.xsd"
    case DinMsgBody => "schemas/DIN/V2G_CI_MsgBody.xsd"
    case DinMsgDataTypes => "schemas/DIN/V2G_CI_MsgDataTypes.xsd"
    case DinMsgDef => "schemas/DIN/V2G_CI_MsgDef.xsd"
    case DinMsgHeader => "schemas/DIN/V2G_CI_MsgHeader.xsd"
  }

  /** `xsd_match`: 1 exactly for a non-null URI whose first eight characters
      are "schemas/", otherwise 0. */
  function Match(uri: Option<string>): (r: int)
    ensures r == 0 || r == 1
    ensures r == 1 <==> uri.Some? && |uri.value| >= 8 && uri.value[..8] == SchemaDirPrefix
  {
    if uri.None? then 0
    else if SchemaDirPrefix <= uri.value then 1
    else 0
  }

  /** The table knows exactly the eighteen listed URIs (sixteen schemas, the
      XML-Signature schema under three of them) and every one of them is a URI
      the callbacks claim. */
  lemma UriTable(uri: string)
    ensures SchemaForUri(uri).Some? <==> uri in KnownUris
    ensures SchemaForUri(uri).Some? ==> Match(Some(uri)) == 1
    ensures SchemaForUri(uri) == Some(XmldsigCore) <==> uri in XmldsigUris
  {
    FoundOnlyKnown(uri);
    if uri in KnownUris {
      var k :| 0 <= k < |KnownUris| && KnownUris[k] == uri;
      KnownUriFound(uri, k);
      UriTableClaimed(uri);
    }
    if uri in XmldsigUris {
      XmldsigAliases(uri);
    }
  }

  /** Only the listed URIs lead to a schema. */
  lemma FoundOnlyKnown(uri: string)
    ensures SchemaForUri(uri).Some? ==> uri in KnownUris
  {
  }

  lemma UriTableClaimed(uri: string)
    requires uri in KnownUris
    ensures Match(Some(uri)) == 1
  {
  }

  lemma XmldsigAliases(uri: string)
    requires uri in XmldsigUris
    ensures SchemaForUri(uri) == Some(XmldsigCore)
  {
    if uri == "schemas/15118-20/xmldsig-core-schema.xsd" {
      FoundIso20Xmldsig(uri);
    } else if uri == "schemas/15118-2/xmldsig-core-schema.xsd" {
      FoundIso2Xmldsig(uri);
    } else {
      FoundDinXmldsig(uri);
    }
  }

  /** What `xsd_open` serves for the `k`-th listed URI: a schema, under its
      own URI, or the XML-Signature schema under one of its aliases. */
  lemma KnownUriFound(uri: string, k: nat)
    requires k < |KnownUris| && KnownUris[k] == uri
    ensures SchemaForUri(uri).Some?
    ensures SchemaForUri(uri) == Some(XmldsigCore) ==> uri in XmldsigUris
    ensures SchemaForUri(uri) != Some(XmldsigCore) ==> uri == UriOf(SchemaForUri(uri).value)
  {
    if k == 0 {
      FoundSap(uri);
    } else if k == 1 {
      FoundIso20Dc(uri);
    } else if k == 2 {
      FoundIso20CommonTypes(uri);
    } else if k == 3 {
      FoundIso20Cm(uri);
    } else if k == 4 {
      FoundIso20Acdp(uri);
    } else if k == 5 {
      FoundIso20Ac(uri);
    } else if k == 6 {
      FoundIso20Wpt(uri);
    } else if k == 7 {
      FoundIso20Xmldsig(uri);
    } else if k == 8 {
      FoundIso2MsgBody(uri);
    } else if k == 9 {
      FoundIso2MsgDataTypes(uri);
    } else if k == 10 {
      FoundIso2MsgDef(uri);
    } else if k == 11 {
      FoundIso2MsgHeader(uri);
    } else if k == 12 {
      FoundIso2Xmldsig(uri);
    } else if k == 13 {
      FoundDinMsgBody(uri);
    } else if k == 14 {
      FoundDinMsgDataTypes(uri);
    } else if k == 15 {
      FoundDinMsgDef(uri);
    } else if k == 16 {
      FoundDinMsgHeader(uri);
    } else {
      FoundDinXmldsig(uri);
    }
  }

  /** Each schema is found under its own URI, and a URI leads to a schema only
      if it is that schema's URI or one of the XML-Signature aliases. */
  lemma UriTableRoundTrip(id: SchemaId)
    ensures SchemaForUri(UriOf(id)) == Some(id)
  {
    match id
    case Sap => FoundSap(UriOf(id));
    case Iso20Dc => FoundIso20Dc(UriOf(id));
    case Iso20CommonTypes => FoundIso20CommonTypes(UriOf(id));
    case Iso20Cm => FoundIso20Cm(UriOf(id));
    case Iso20Acdp => FoundIso20Acdp(UriOf(id));
    case Iso20Ac => FoundIso20Ac(UriOf(id));
    case Iso20Wpt => FoundIso20Wpt(UriOf(id));
    case XmldsigCore => FoundIso20Xmldsig(UriOf(id));
    case Iso2MsgBody => FoundIso2MsgBody(UriOf(id));
    case Iso2MsgDataTypes => FoundIso2MsgDataTypes(UriOf(id));
    case Iso2MsgDef => FoundIso2MsgDef(UriOf(id));
    case Iso2MsgHeader => FoundIso2MsgHeader(UriOf(id));
    case DinMsgBody => FoundDinMsgBody(UriOf(id));
    case DinMsgDataTypes => FoundDinMsgDataTypes(UriOf(id));
    case DinMsgDef => FoundDinMsgDef(UriOf(id));
    case DinMsgHeader => FoundDinMsgHeader(UriOf(id));
  }

  lemma UriTableAliases(id: SchemaId, uri: string)
    requires SchemaForUri(uri) == Some(id)
    ensures uri == UriOf(id) || (id == XmldsigCore && uri in XmldsigUris)
  {
    FoundOnlyKnown(uri);
    var k :| 0 <= k < |KnownUris| && KnownUris[k] == uri;
    KnownUriFound(uri, k);
  }

  // Where each URI of the chain leads.

  lemma FoundSap(uri: string)
    requires uri == "schemas/common/V2G_CI_AppProtocol.xsd"
    ensures SchemaForUri(uri) == Some(Sap)
  {
    assert |uri| == 37;
  }

  lemma FoundIso20Dc(uri: string)
    requires uri == "schemas/15118-20/V2G_CI_DC.xsd"
    ensures SchemaForUri(uri) == Some(Iso20Dc)
  {
    assert |uri| == 30;
  }

  lemma FoundIso20CommonTypes(uri: string)
    requires uri == "schemas/15118-20/V2G_CI_CommonTypes.xsd"
    ensures SchemaForUri(uri) == Some(Iso20CommonTypes)
  {
    assert |uri| == 39;
  }

  lemma FoundIso20Cm(uri: string)
    requires uri == "schemas/15118-20/V2G_CI_CommonMessages.xsd"
    ensures SchemaForUri(uri) == Some(Iso20Cm)
  {
    assert |uri| == 42;
  }

  lemma FoundIso20Acdp(uri: string)
    requires uri == "schemas/15118-20/V2G_CI_ACDP.xsd"
    ensures SchemaForUri(uri) == Some(Iso20Acdp)
  {
    assert |uri| == 32;
  }

  lemma FoundIso20Ac(uri: string)
    requires uri == "schemas/15118-20/V2G_CI_AC.xsd"
    ensures SchemaForUri(uri) == Some(Iso20Ac)
  {
    assert |uri| == 30;
  }

  lemma FoundIso20Wpt(uri: string)
    requires uri == "schemas/15118-20/V2G_CI_WPT.xsd"
    ensures SchemaForUri(uri) == Some(Iso20Wpt)
  {
    assert |uri| == 31;
  }

  lemma FoundIso20Xmldsig(uri: string)
    requires uri == "schemas/15118-20/xmldsig-core-schema.xsd"
    ensures SchemaForUri(uri) == Some(XmldsigCore)
  {
    assert |uri| == 40;
  }

  lemma FoundIso2MsgBody(uri: string)
    requires uri == "schemas/15118-2/V2G_CI_MsgBody.xsd"
    ensures SchemaForUri(uri) == Some(Iso2MsgBody)
  {
    assert |uri| == 34;
  }

  lemma FoundIso2MsgDataTypes(uri: string)
    requires uri == "schemas/15118-2/V2G_CI_MsgDataTypes.xsd"
    ensures SchemaForUri(uri) == Some(Iso2MsgDataTypes)
  {
    assert |uri| == 39;
  }

  lemma FoundIso2MsgDef(uri: string)
    requires uri == "schemas/15118-2/V2G_CI_MsgDef.xsd"
    ensures SchemaForUri(uri) == Some(Iso2MsgDef)
  {
    assert |uri| == 33;
  }

  lemma FoundIso2MsgHeader(uri: string)
    requires uri == "schemas/15118-2/V2G_CI_MsgHeader.xsd"
    ensures SchemaForUri(uri) == Some(Iso2MsgHeader)
  {
    assert |uri| == 36;
  }

  lemma FoundIso2Xmldsig(uri: string)
    requires uri == "schemas/15118-2/xmldsig-core-schema.xsd"
    ensures SchemaForUri(uri) == Some(XmldsigCore)
  {
    assert |uri| == 39;
  }

  lemma FoundDinMsgBody(uri: string)
    requires uri == "schemas/DIN/V2G_CI_MsgBody.xsd"
    ensures SchemaForUri(uri) == Some(DinMsgBody)
  {
    assert |uri| == 30;
  }

  lemma FoundDinMsgDataTypes(uri: string)
    requires uri == "schemas/DIN/V2G_CI_MsgDataTypes.xsd"
    ensures SchemaForUri(uri) == Some(DinMsgDataTypes)
  {
    assert |uri| == 35;
  }

  lemma FoundDinMsgDef(uri: string)
    requires uri == "schemas/DIN/V2G_CI_MsgDef.xsd"
    ensures SchemaForUri(uri) == Some(DinMsgDef)
  {
    assert |uri| == 29;
  }

  lemma FoundDinMsgHeader(uri: string)
    requires uri == "schemas/DIN/V2G_CI_MsgHeader.xsd"
    ensures SchemaForUri(uri) == Some(DinMsgHeader)
  {
    assert |uri| == 32;
  }

  lemma FoundDinXmldsig(uri: string)
    requires uri == "schemas/DIN/xmldsig-core-schema.xsd"
    ensures SchemaForUri(uri) == Some(XmldsigCore)
  {
    assert |uri| == 35;
  }

  function Min(a: int, b: int): int {
    if a < b then a else b
  }

  /** The callback state: the two cursors, and the unpacked text of every
      embedded schema (`unzip_data` of its array, taken as given). */
  class InputCallbacks {
    var rlen: int
    var plen: int
    const unzipped: SchemaId -> string

    /** The buffer of the schema opened last, which `xsd_read` is reading. */
    ghost var source: string

    ghost predicate Valid()
      reads this
    {
      0 <= rlen && 0 <= plen && plen + rlen <= |source|
    }

    /** Between a successful open and the close, what was consumed and what
        is left together are the schema's C string. */
    ghost predicate Streaming()
      reads this
    {
      plen + rlen == |UntilNul(source)|
    }

    /** What `xsd_read` has handed to libxml since the last open. */
    ghost function Delivered(): string
      reads this
      requires Valid()
    {
      source[..plen]
    }

    /** Both cursors start at 0, as the static initialisers have them. */
    constructor (unzipped: SchemaId -> string)
      ensures Valid() && rlen == 0 && plen == 0 && this.unzipped == unzipped
    {
      this.unzipped := unzipped;
      rlen, plen := 0, 0;
      source := [];
    }

    /** `xsd_prepare`: unpack a schema and make its C string the stream. */
    method Prepare(id: SchemaId) returns (ctx: string)
      modifies this
      ensures ctx == unzipped(id) && source == ctx && rlen == |UntilNul(ctx)|
      ensures plen == old(plen)
    {
      ctx := unzipped(id);
      rlen := |UntilNul(ctx)|;
      source := ctx;
    }

    /** `xsd_open`: a NULL URI changes nothing; any other URI resets `plen`,
        and either starts the stream of the schema the table names or, for an
        unknown URI, clears `rlen` and returns NULL. */
    method Open(uri: Option<string>) returns (ctx: Option<string>)
      requires Valid()
      modifies this
      ensures Valid()
      ensures uri.None? ==> ctx.None? && rlen == old(rlen) && plen == old(plen) && source == old(source)
      ensures uri.Some? ==> plen == 0 && match SchemaForUri(uri.value)
        case None => ctx.None? && rlen == 0 && source == []
        case Some(id) => ctx == Some(unzipped(id)) && source == unzipped(id) &&
                         rlen == |UntilNul(unzipped(id))| && Streaming() && Delivered() == []
    {
      if uri.None? {
        return None;
      }
      plen := 0;
      match SchemaForUri(uri.value) {
        case Some(id) =>
          var text := Prepare(id);
          ctx := Some(text);
        case None =>
          rlen := 0;
          source := [];
          ctx := None;
      }
    }

    /** `xsd_close`: the stream is finished; `plen` is left as it is. */
    method Close(ctx: Option<string>) returns (r: int)
      requires Valid()
      modifies this
      ensures Valid() && r == 0
      ensures rlen == 0 && plen == old(plen) && source == old(source)
    {
      rlen := 0;
      r := 0;
    }

    /** `xsd_read`: -1 for a NULL context or buffer or a negative length,
        with nothing changed; otherwise the next min(len, rlen) characters
        of the stream are copied into the buffer, the count is returned and the
        cursors advance by it, so `rlen + plen` stays the same and the chunks
        handed out follow each other without gap or overlap. libxml passes
        back the context `xsd_open` returned and a buffer that holds the chunk. */
    method Read(ctx: Option<string>, buffer: Option<array<char>>, len: int) returns (n: int)
      requires Valid()
      requires ctx.Some? && buffer.Some? && len >= 0 ==>
        ctx.value == source && Min(len, rlen) <= buffer.value.Length
      modifies this, if buffer.Some? then {buffer.value} else {}
      ensures Valid() && source == old(source)
      ensures ctx.None? || buffer.None? || len < 0 ==>
        n == -1 && rlen == old(rlen) && plen == old(plen)
      ensures ctx.Some? && buffer.Some? && len >= 0 ==>
        n == Min(len, old(rlen)) &&
        rlen == old(rlen) - n && plen == old(plen) + n &&
        buffer.value[..n] == source[old(plen)..plen] &&
        buffer.value[n..] == old(buffer.value[n..]) &&
        Delivered() == old(Delivered()) + buffer.value[..n]
      ensures ctx.Some? && buffer.Some? && len > 0 && Streaming() ==>
        (n == 0 <==> old(Delivered()) == UntilNul(source))
      ensures Streaming() == old(Streaming())
    {
      if ctx.None? || buffer.None? || len < 0 {
        return -1;
      }
      var buf := buffer.value;
      n := len;
      if n > rlen {
        n := rlen;
      }
      var ptr := ctx.value;
      forall i | 0 <= i < n {
        buf[i] := ptr[plen + i];
      }
      rlen := rlen - n;
      plen := plen + n;
      assert source[..plen] == old(source[..plen]) + buf[..n];
    }
  }
}
