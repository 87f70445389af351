/** `XmlValidator` of XmlValidator.cpp: one compiled schema context per V2G
    namespace, and `validate_xml`, which picks the context from the namespace,
    reads the document until the reader stops or a schema error is reported,
    and turns the outcome into a verdict plus a truncated error message.

    libxml2 is not modelled: what the reader does with a document under a given
    context is a `LibxmlRun` (whether the reader could be created, the values
    successive `xmlTextReaderRead` calls return, whether the schema error
    handler fired during each call, and the message `xmlGetLastError` then
    holds), and a document is a function from the selected context to its run. */
module Validation {
  import opened Text
  import SchemaInput

  const NamespaceSap := "urn:iso:15118:2:2010:AppProtocol"
  const NamespaceDin := "urn:din:70121:2012:MsgDef"
  const NamespaceIso2 := "urn:iso:15118:2:2013:MsgDef"
  const NamespaceIso20Cm := "urn:iso:std:iso:15118:-20:CommonMessages"
  const NamespaceIso20Ac := "urn:iso:std:iso:15118:-20:AC"
  const NamespaceIso20Dc := "urn:iso:std:iso:15118:-20:DC"
  const NamespaceIso20Acdp := "urn:iso:std:iso:15118:-20:ACDP"
  const NamespaceIso20Wpt := "urn:iso:std:iso:15118:-20:WPT"

  /** The message libxml reports for an X509SerialNumber the decoder rendered
      in hex rather than as an integer; `validate_xml` accepts it. */
  const X509SerialPrefix := "Element '" + "{http://www.w3.org/2000/09/xmldsig#}X509SerialNumber'"
  const X509SerialPrefixLen := 62

  /** The eight validator contexts the class holds. */
  datatype Slot = SapSlot | DinSlot | Iso2Slot | Iso20CmSlot | Iso20DcSlot | Iso20AcSlot | Iso20AcdpSlot | Iso20WptSlot

  function NamespaceOf(slot: Slot): string {
    match slot
    case SapSlot => NamespaceSap
    case DinSlot => NamespaceDin
    case Iso2Slot => NamespaceIso2
    case Iso20CmSlot => NamespaceIso20Cm
    case Iso20DcSlot => NamespaceIso20Dc
    case Iso20AcSlot => NamespaceIso20Ac
    case Iso20AcdpSlot => NamespaceIso20Acdp
    case Iso20WptSlot => NamespaceIso20Wpt
  }

  /** The namespace dispatch of `validate_xml`, in the order of its `strcmp`
      chain; None leaves `valid_ctxt` NULL. */
  function SlotForNamespace(ns: string): (r: Option<Slot>)
    ensures r.Some? ==> NamespaceOf(r.value) == ns
  {
    if ns == NamespaceSap then Some(SapSlot)
    else if ns == NamespaceDin then Some(DinSlot)
    else if ns == NamespaceIso2 then Some(Iso2Slot)
    else if ns == NamespaceIso20Cm then Some(Iso20CmSlot)
    else if ns == NamespaceIso20Dc then Some(Iso20DcSlot)
    else if ns == NamespaceIso20Ac then Some(Iso20AcSlot)
    else if ns == NamespaceIso20Acdp then Some(Iso20AcdpSlot)
    else if ns == NamespaceIso20Wpt then Some(Iso20WptSlot)
    else None
  }

  /** The schema `init_validators` compiles for each context. */
  function SchemaUrl(slot: Slot): string {
    match slot
    case SapSlot => "schemas/common/V2G_CI_AppProtocol.xsd"
    case DinSlot => "schemas/DIN/V2G_CI_MsgDef.xsd"
    case Iso2Slot => "schemas/15118-2/V2G_CI_MsgDef.xsd"
    case Iso20CmSlot => "schemas/15118-20/V2G_CI_CommonMessages.xsd"
    case Iso20DcSlot => "schemas/15118-20/V2G_CI_DC.xsd"
    case Iso20AcSlot => "schemas/15118-20/V2G_CI_AC.xsd"
    case Iso20AcdpSlot => "schemas/15118-20/V2G_CI_ACDP.xsd"
    case Iso20WptSlot => "schemas/15118-20/V2G_CI_WPT.xsd"
  }

  /** Each of the eight namespaces selects its own context, and only those
      eight select one. */
  lemma SlotDispatch(ns: string, slot: Slot)
    ensures SlotForNamespace(ns) == Some(slot) <==> ns == NamespaceOf(slot)
  {
    match slot
    case SapSlot => assert SlotForNamespace(NamespaceSap) == Some(SapSlot);
    case DinSlot => assert SlotForNamespace(NamespaceDin) == Some(DinSlot);
    case Iso2Slot => assert SlotForNamespace(NamespaceIso2) == Some(Iso2Slot);
    case Iso20CmSlot => assert SlotForNamespace(NamespaceIso20Cm) == Some(Iso20CmSlot);
    case Iso20DcSlot => assert SlotForNamespace(NamespaceIso20Dc) == Some(Iso20DcSlot);
    case Iso20AcSlot => assert SlotForNamespace(NamespaceIso20Ac) == Some(Iso20AcSlot);
    case Iso20AcdpSlot => assert SlotForNamespace(NamespaceIso20Acdp) == Some(Iso20AcdpSlot);
    case Iso20WptSlot => assert SlotForNamespace(NamespaceIso20Wpt) == Some(Iso20WptSlot);
  }

  /** Every context is compiled from a schema the input callbacks claim and
      serve from the embedded table. */
  lemma SchemaUrlsEmbedded(slot: Slot)
    ensures SchemaInput.Match(Some(SchemaUrl(slot))) == 1
    ensures SchemaInput.SchemaForUri(SchemaUrl(slot)).Some?
  {
    var known := SchemaInput.KnownUris;
    match slot
    case SapSlot => assert known[0] == SchemaUrl(slot);
    case DinSlot => assert known[15] == SchemaUrl(slot);
    case Iso2Slot => assert known[10] == SchemaUrl(slot);
    case Iso20CmSlot => assert known[3] == SchemaUrl(slot);
    case Iso20DcSlot => assert known[1] == SchemaUrl(slot);
    case Iso20AcSlot => assert known[5] == SchemaUrl(slot);
    case Iso20AcdpSlot => assert known[4] == SchemaUrl(slot);
    case Iso20WptSlot => assert known[6] == SchemaUrl(slot);
    SchemaInput.UriTable(SchemaUrl(slot));
  }

  /** A compiled schema validation context, named by the schema it came from. */
  datatype ValidCtxt = ValidCtxt(schemaUrl: string)

  /** One `xmlTextReaderRead` call: its return value (1 a node was read, 0 the
      end of the document, -1 an error) and whether the schema error handler
      fired while it ran. */
  datatype ReadStep = ReadStep(ret: int, schemaError: bool)

  /** What libxml2 does with one document: whether `xmlReaderForMemory` gave a
      reader, the reads in order, and the text of the last error message
      (`xmlGetLastError()->message`, a C string, so it holds no NUL). */
  datatype LibxmlRun = LibxmlRun(readerCreated: bool, steps: seq<ReadStep>, lastError: string)

  /** The `i`-th read; reading on past the recorded steps finds the end of the
      document. */
  function StepAt(steps: seq<ReadStep>, i: nat): ReadStep {
    if i < |steps| then steps[i] else ReadStep(0, false)
  }

  /** The reading loop goes on after a read that returned 1 and did not raise
      a schema error; the handler is only installed when a context was found. */
  predicate Continues(steps: seq<ReadStep>, i: nat, validating: bool) {
    StepAt(steps, i).ret == 1 && !(validating && StepAt(steps, i).schemaError)
  }

  /** The value of `ret` when the loop stops, having made read `i`. */
  function ReadFrom(steps: seq<ReadStep>, i: nat, validating: bool): (ret: int)
    ensures ret == 0 || exists k :: i <= k < |steps| && steps[k].ret == ret
    ensures ret == 1 ==> validating && exists k :: i <= k < |steps| && steps[k] == ReadStep(1, true)
    decreases |steps| - i
  {
    if i < |steps| && Continues(steps, i, validating) then ReadFrom(steps, i + 1, validating)
    else StepAt(steps, i).ret
  }

  /** `ret` after the loop: -1 when no reader could be created. */
  function FinalRet(run: LibxmlRun, validating: bool): (ret: int)
    ensures !run.readerCreated ==> ret == -1
  {
    if run.readerCreated then ReadFrom(run.steps, 0, validating) else -1
  }

  /** The loop stops at the first read that does not let it go on, and `ret`
      is what that read returned. */
  lemma {:induction false} ReadFromFirstStop(steps: seq<ReadStep>, i: nat, k: nat, validating: bool)
    requires i <= k
    requires forall j :: i <= j < k ==> Continues(steps, j, validating)
    requires !Continues(steps, k, validating)
    ensures ReadFrom(steps, i, validating) == StepAt(steps, k).ret
    decreases k - i
  {
    if i < k {
      assert Continues(steps, i, validating);
      ReadFromFirstStop(steps, i + 1, k, validating);
    }
  }

  /** The outcome of `validate_xml`: valid, or invalid with the characters
      copied into the caller's buffer. */
  datatype Verdict = Valid | Invalid(copied: string)

  /** The result rule: a clean end of the document is valid; any other end is
      valid only when libxml's last message is the X509SerialNumber one, and
      otherwise at most `size` characters of that message are handed back. */
  function Judge(run: LibxmlRun, validating: bool, size: nat): (v: Verdict)
    ensures v.Valid? <==> FinalRet(run, validating) == 0 || X509SerialPrefix <= run.lastError
    ensures v.Invalid? ==> |v.copied| <= size && v.copied <= run.lastError
    ensures v.Invalid? && |run.lastError| <= size ==> v.copied == run.lastError
  {
    if FinalRet(run, validating) != 0 then
      if X509SerialPrefix <= run.lastError then Valid
      else Invalid(run.lastError[..SchemaInput.Min(|run.lastError|, size)])
    else Valid
  }

  /** The `strncmp` bound agrees with the prefix it guards. */
  lemma X509PrefixLength()
    ensures |X509SerialPrefix| == X509SerialPrefixLen
  {
  }

  /** With a context, a schema error on a read that found a node rejects the
      document unless it is the X509SerialNumber message; without one, schema
      errors are never seen and only the reader's own result counts. */
  lemma SchemaErrorRejects(run: LibxmlRun, k: nat, size: nat)
    requires run.readerCreated && k < |run.steps|
    requires forall j :: 0 <= j < k ==> Continues(run.steps, j, true)
    requires run.steps[k].ret == 1 && run.steps[k].schemaError
    requires !(X509SerialPrefix <= run.lastError)
    ensures Judge(run, true, size).Invalid?
  {
    ReadFromFirstStop(run.steps, 0, k, true);
  }

  /** A schema error raised by the read that reaches the end of the document
      (it returns 0) is not looked at: the document is accepted. */
  lemma SchemaErrorAtEndAccepted(run: LibxmlRun, k: nat, size: nat)
    requires run.readerCreated && k < |run.steps|
    requires forall j :: 0 <= j < k ==> Continues(run.steps, j, true)
    requires run.steps[k] == ReadStep(0, true)
    ensures Judge(run, true, size).Valid?
  {
    ReadFromFirstStop(run.steps, 0, k, true);
  }

  /** Without a schema context the verdict ignores every schema error flag. */
  lemma {:induction false} UnvalidatedIgnoresSchemaErrors(steps: seq<ReadStep>, i: nat)
    ensures ReadFrom(steps, i, false) == ReadFrom(Unflagged(steps), i, true)
    decreases |steps| - i
  {
    if i < |steps| {
      UnvalidatedIgnoresSchemaErrors(steps, i + 1);
    }
  }

  function Unflagged(steps: seq<ReadStep>): (r: seq<ReadStep>)
    ensures |r| == |steps| && forall i :: 0 <= i < |steps| ==> r[i] == ReadStep(steps[i].ret, false)
  {
    seq(|steps|, i requires 0 <= i < |steps| => ReadStep(steps[i].ret, false))
  }

  /** `create_parser`: a context when libxml manages to compile the schema. */
  function CreateParser(url: string, compiles: string -> bool): (r: Option<ValidCtxt>)
    ensures r.Some? <==> compiles(url)
    ensures r.Some? ==> r.value.schemaUrl == url
  {
    if compiles(url) then Some(ValidCtxt(url)) else None
  }

  class XmlValidator {
    var ctxSap: Option<ValidCtxt>
    var ctxDin: Option<ValidCtxt>
    var ctxIso2: Option<ValidCtxt>
    var ctxIso20Cm: Option<ValidCtxt>
    var ctxIso20Dc: Option<ValidCtxt>
    var ctxIso20Ac: Option<ValidCtxt>
    var ctxIso20Acdp: Option<ValidCtxt>
    var ctxIso20Wpt: Option<ValidCtxt>

    function Context(slot: Slot): Option<ValidCtxt>
      reads this
    {
      match slot
      case SapSlot => ctxSap
      case DinSlot => ctxDin
      case Iso2Slot => ctxIso2
      case Iso20CmSlot => ctxIso20Cm
      case Iso20DcSlot => ctxIso20Dc
      case Iso20AcSlot => ctxIso20Ac
      case Iso20AcdpSlot => ctxIso20Acdp
      case Iso20WptSlot => ctxIso20Wpt
    }

    /** The context `validate_xml` installs for a namespace, if any. */
    function SelectedContext(ns: string): Option<ValidCtxt>
      reads this
    {
      match SlotForNamespace(ns)
      case None => None
      case Some(slot) => Context(slot)
    }

    /** Every context starts out NULL. */
    constructor ()
      ensures forall slot :: Context(slot).None?
    {
      ctxSap, ctxDin, ctxIso2 := None, None, None;
      ctxIso20Cm, ctxIso20Dc, ctxIso20Ac, ctxIso20Acdp, ctxIso20Wpt := None, None, None, None, None;
    }

    /** `init_validators`: compile the eight schemas; a context whose schema
        does not compile stays NULL. */
    method InitValidators(compiles: string -> bool)
      modifies this
      ensures forall slot :: Context(slot) == CreateParser(SchemaUrl(slot), compiles)
    {
      ctxSap := CreateParser(SchemaUrl(SapSlot), compiles);
      ctxDin := CreateParser(SchemaUrl(DinSlot), compiles);
      ctxIso2 := CreateParser(SchemaUrl(Iso2Slot), compiles);
      ctxIso20Cm := CreateParser(SchemaUrl(Iso20CmSlot), compiles);
      ctxIso20Dc := CreateParser(SchemaUrl(Iso20DcSlot), compiles);
      ctxIso20Ac := CreateParser(SchemaUrl(Iso20AcSlot), compiles);
      ctxIso20Acdp := CreateParser(SchemaUrl(Iso20AcdpSlot), compiles);
      ctxIso20Wpt := CreateParser(SchemaUrl(Iso20WptSlot), compiles);
      forall slot ensures Context(slot) == CreateParser(SchemaUrl(slot), compiles) {
        match slot
        case SapSlot => case DinSlot => case Iso2Slot => case Iso20CmSlot =>
        case Iso20DcSlot => case Iso20AcSlot => case Iso20AcdpSlot => case Iso20WptSlot =>
      }
    }

    /** `validate_xml`: the verdict of `Judge` for the run the document gives
        under the selected context; on an invalid verdict the message is
        copied to the front of `errorOut` (no terminator is written) and the
        rest of the buffer is left alone. */
    method ValidateXml(xml: Option<ValidCtxt> -> LibxmlRun, ns: string, errorOut: array<char>, size: nat)
      returns (valid: bool)
      requires size <= errorOut.Length
      modifies errorOut
      ensures var ctx := SelectedContext(ns);
              var verdict := Judge(xml(ctx), ctx.Some?, size);
              valid == verdict.Valid? &&
              (verdict.Valid? ==> errorOut[..] == old(errorOut[..])) &&
              (verdict.Invalid? ==>
                 errorOut[..|verdict.copied|] == verdict.copied &&
                 errorOut[|verdict.copied|..] == old(errorOut[|verdict.copied|..]))
    {
      var validCtxt: Option<ValidCtxt> := None;
      match SlotForNamespace(ns) {
        case Some(slot) => validCtxt := Context(slot);
        case None =>
      }
      var run := xml(validCtxt);
      var validating := validCtxt.Some?;
      var ret := -1;
      var hasSchemaErrors := false;
      if run.readerCreated {
        var i := 0;
        var step := StepAt(run.steps, i);
        ret := step.ret;
        hasSchemaErrors := validating && step.schemaError;
        while ret == 1 && !hasSchemaErrors
          invariant i <= |run.steps|
          invariant ret == StepAt(run.steps, i).ret
          invariant hasSchemaErrors == (validating && StepAt(run.steps, i).schemaError)
          invariant ReadFrom(run.steps, 0, validating) == ReadFrom(run.steps, i, validating)
          decreases |run.steps| - i
        {
          i := i + 1;
          step := StepAt(run.steps, i);
          ret := step.ret;
          hasSchemaErrors := hasSchemaErrors || (validating && step.schemaError);
        }
      }
      if ret != 0 {
        var message := run.lastError;
        if X509SerialPrefix <= message {
          valid := true;
        } else {
          var errorLength := |message|;
          if errorLength > size {
            errorLength := size;
          }
          forall k | 0 <= k < errorLength {
            errorOut[k] := message[k];
          }
          valid := false;
        }
      } else {
        valid := true;
      }
    }
  }
}
