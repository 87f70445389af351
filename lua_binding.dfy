/** The decision logic of the Lua bindings in LuaLibV2G.cpp: the schema
    fallback of `decodeV2GExi`, the result shaping of `decodeV2GAuto`, the
    verdict and namespace stripping of `validateXml`, and the PEM armour
    `getX509Infos` puts around a certificate body (section 5.1 of RFC 7468).

    What a binding pushes onto the Lua stack is a sequence of `LuaValue`s. The
    EXI decoder is a function from (EXI input, schema namespace) to its
    `result_decode`. Lua string arguments reach the C++ code through
    `luaL_checkstring` and `std::string(const char *)`, so only the characters
    before a first NUL are seen; `lua_pushstring(s.c_str())` pushes likewise. */
module LuaBinding {
  import opened Text
  import Validation

  datatype LuaValue = Nil | Bool(b: bool) | Int(i: int) | Str(s: string)

  /** `lua_pushstring(L, s.c_str())`. */
  function PushString(s: string): LuaValue {
    Str(UntilNul(s))
  }

  /** EXI_ERROR__NO_ERROR. */
  const ExiNoError := 0

  /** `result_decode` of the EXI decoder. */
  datatype DecodeResult = DecodeResult(decodedXml: string, usedSchema: string, errn: int)

  /** The three values a decode binding pushes for a decoding under `schema`. */
  function Reported(r: DecodeResult, schema: string): seq<LuaValue> {
    [PushString(r.decodedXml), PushString(schema), Int(r.errn)]
  }

  /** `l_decodeV2GExi`: decode with the requested schema; if that fails, try
      the SupportedAppProtocol schema and report that decoding if it succeeds,
      otherwise report the first attempt (its XML, the requested schema and
      its error code) and drop the second error. Whatever is reported is one
      decoder result together with the schema that produced it; success is
      reported exactly when one of the attempts succeeded, and the requested
      schema is preferred. */
  function DecodeV2GExi(decode: (string, string) -> DecodeResult, schemaArg: string, exiArg: string)
    : (pushed: seq<LuaValue>)
    ensures var schemaIn, exiIn := UntilNul(schemaArg), UntilNul(exiArg);
            var first, fallback := decode(exiIn, schemaIn), decode(exiIn, Validation.NamespaceSap);
            (pushed == Reported(first, schemaIn) || pushed == Reported(fallback, Validation.NamespaceSap)) &&
            (pushed[2] == Int(ExiNoError) <==> first.errn == ExiNoError || fallback.errn == ExiNoError) &&
            (first.errn == ExiNoError ==> pushed == Reported(first, schemaIn)) &&
            (first.errn != ExiNoError && fallback.errn == ExiNoError ==>
               pushed == Reported(fallback, Validation.NamespaceSap)) &&
            (first.errn != ExiNoError && fallback.errn != ExiNoError ==> pushed == Reported(first, schemaIn))
  {
    var schemaIn := UntilNul(schemaArg);
    var exiIn := UntilNul(exiArg);
    var result := decode(exiIn, schemaIn);
    if result.errn != 0 then
      var lastErroneousXml := result.decodedXml;
      var lastErrn := result.errn;
      var fallback := decode(exiIn, Validation.NamespaceSap);
      if fallback.errn == ExiNoError then
        [PushString(fallback.decodedXml), PushString(Validation.NamespaceSap), Int(fallback.errn)]
      else
        [PushString(lastErroneousXml), PushString(schemaIn), Int(lastErrn)]
    else
      [PushString(result.decodedXml), PushString(schemaIn), Int(result.errn)]
  }

  /** Asking for the SupportedAppProtocol schema itself makes the fallback a
      second identical attempt: the answer is the first decoding. */
  lemma DecodeSapNoFallback(decode: (string, string) -> DecodeResult, exiArg: string)
    ensures DecodeV2GExi(decode, Validation.NamespaceSap, exiArg) ==
            Reported(decode(UntilNul(exiArg), Validation.NamespaceSap), Validation.NamespaceSap)
  {
    UntilNulOfCString(Validation.NamespaceSap);
  }

  lemma UntilNulOfCString(s: string)
    requires NUL !in s
    ensures UntilNul(s) == s
  {
    if s != [] {
      assert s[0] != NUL && NUL !in s[1..];
      UntilNulOfCString(s[1..]);
    }
  }

  /** `l_decodeV2GExiAuto`: three nils on any decoder error, otherwise the XML,
      the schema the decoder chose and the (zero) error code. */
  function DecodeV2GExiAuto(decodeAuto: string -> DecodeResult, exiArg: string): (pushed: seq<LuaValue>)
    ensures |pushed| == 3
    ensures var r := decodeAuto(UntilNul(exiArg));
            (pushed == [Nil, Nil, Nil] <==> r.errn != ExiNoError) &&
            (r.errn == ExiNoError ==> pushed == Reported(r, r.usedSchema) && pushed[2] == Int(ExiNoError))
  {
    var result := decodeAuto(UntilNul(exiArg));
    if result.errn != ExiNoError then [Nil, Nil, Nil]
    else [PushString(result.decodedXml), PushString(result.usedSchema), Int(result.errn)]
  }

  /** The namespace removal of `l_validate`: the span from the first '{'
      through the first '}' is erased when both exist in that order. */
  function StripNamespace(msg: string): (r: string)
    ensures |r| <= |msg|
  {
    match (FindChar(msg, '{'), FindChar(msg, '}'))
    case (Some(startPos), Some(endPos)) =>
      if startPos < endPos then msg[..startPos] + msg[endPos + 1..] else msg
    case _ => msg
  }

  /** A message `a{b}c` whose first braces are the ones shown loses `{b}`:
      "Element '{urn:x}Foo': ..." becomes "Element 'Foo': ...". */
  lemma StripNamespaceBlock(a: string, b: string, c: string)
    requires '{' !in a && '}' !in a && '}' !in b
    ensures StripNamespace(a + "{" + b + "}" + c) == a + c
  {
    var msg := a + "{" + b + "}" + c;
    var o, e := |a|, |a| + 1 + |b|;
    assert msg[o] == '{' && msg[..o] == a;
    assert msg[e] == '}' && msg[..e] == a + "{" + b;
    assert msg[e + 1..] == c;
    assert FindChar(msg, '{') == Some(o) by { FindCharAt(msg, '{', o); }
    assert FindChar(msg, '}') == Some(e) by { FindCharAt(msg, '}', e); }
  }

  lemma FindCharAt(s: string, c: char, i: nat)
    requires i < |s| && s[i] == c && c !in s[..i]
    ensures FindChar(s, c) == Some(i)
  {
    assert s[..i + 1][i] == c;
  }

  /** Without a '{' before the first '}', the message is left as it is. */
  lemma StripNamespaceKeeps(msg: string)
    requires '}' !in msg || '{' !in msg[..FindChar(msg, '}').value]
    ensures StripNamespace(msg) == msg
  {
  }

  const ErrorBufferSize := 512
  const InternalValidationError := "internal validation error"

  /** The zero-filled `char error[512]` after `validate_xml` copied `copied`
      to its front. */
  function ErrorBuffer(copied: string): (buf: string)
    requires |copied| <= ErrorBufferSize
    ensures |buf| == ErrorBufferSize && buf[..|copied|] == copied
  {
    copied + seq(ErrorBufferSize - |copied|, _ => NUL)
  }

  /** As written, `std::string(error)` reads up to a NUL, which the buffer
      holds only when the message was shorter than the buffer; None stands for
      the read running past the end of the array. */
  function ErrorStringAsWritten(buf: string): Option<string> {
    if NUL in buf then Some(UntilNul(buf)) else None
  }

  /** A message of 512 characters or more fills the whole buffer, leaves no
      terminator, and the as-written read runs past the array. */
  lemma LongMessageOverreads(message: string)
    requires |message| >= ErrorBufferSize && NUL !in message
    ensures ErrorStringAsWritten(ErrorBuffer(message[..ErrorBufferSize])) == None
  {
    var buf := ErrorBuffer(message[..ErrorBufferSize]);
    assert buf == message[..ErrorBufferSize];
    assert NUL !in buf by {
      forall i | 0 <= i < |buf| ensures buf[i] != NUL { assert buf[i] == message[i]; }
    }
  }

  /** A concrete instance: libxml fails on the first read with a 600-character
      message. */
  lemma LongMessageExample()
    ensures var run := Validation.LibxmlRun(true, [Validation.ReadStep(-1, false)], seq(600, _ => 'x'));
            var v := Validation.Judge(run, true, ErrorBufferSize);
            v.Invalid? && ErrorStringAsWritten(ErrorBuffer(v.copied)) == None
  {
    var msg: string := seq(600, _ => 'x');
    var run := Validation.LibxmlRun(true, [Validation.ReadStep(-1, false)], msg);
    assert Validation.FinalRet(run, true) == -1;
    assert !(Validation.X509SerialPrefix <= msg) by {
      assert msg[0] == 'x';
      assert Validation.X509SerialPrefix[0] == 'E';
    }
    LongMessageOverreads(msg);
  }

  /** The bounded read of the buffer (what `std::string(error, strnlen(error,
      sizeof error))` gives): never beyond the array. */
  function ErrorString(buf: string): (r: string)
    ensures |r| <= |buf|
  {
    UntilNul(buf)
  }

  /** With the bounded read, the text handed to Lua is exactly the copied
      message, that is the message cut to at most 512 characters. */
  lemma ErrorStringRecoversMessage(copied: string)
    requires |copied| <= ErrorBufferSize && NUL !in copied
    ensures ErrorString(ErrorBuffer(copied)) == copied
  {
    UntilNulThroughNul(copied, seq(ErrorBufferSize - |copied|, _ => NUL));
  }

  lemma {:induction false} UntilNulThroughNul(a: string, b: string)
    requires NUL !in a && (b == [] || b[0] == NUL)
    ensures UntilNul(a + b) == a
    decreases |a|
  {
    if a == [] {
      assert a + b == b;
    } else {
      assert (a + b)[0] == a[0] && (a + b)[1..] == a[1..] + b;
      UntilNulThroughNul(a[1..], b);
      assert a == [a[0]] + a[1..];
    }
  }

  /** The values `l_validate` pushes for a verdict: `true` alone, or `false`
      with the message minus its first namespace block. */
  function ValidationPushes(verdict: Validation.Verdict): seq<LuaValue>
    requires verdict.Invalid? ==> |verdict.copied| <= ErrorBufferSize
  {
    if verdict.Valid? then [Bool(true)]
    else [Bool(false), PushString(StripNamespace(ErrorString(ErrorBuffer(verdict.copied))))]
  }

  /** `l_validate`: validate into a zeroed 512-character buffer, then push
      `true`, or `false` and the message with its first `{...}` block erased;
      an exception thrown on the way (`throws`) pushes `false` and
      "internal validation error". */
  method Validate(validator: Validation.XmlValidator, xmlDoc: Option<Validation.ValidCtxt> -> Validation.LibxmlRun,
                  nsArg: string, throws: bool)
    returns (pushed: seq<LuaValue>)
    ensures throws ==> pushed == [Bool(false), Str(InternalValidationError)]
    ensures !throws ==>
      var ctx := validator.SelectedContext(UntilNul(nsArg));
      pushed == ValidationPushes(Validation.Judge(xmlDoc(ctx), ctx.Some?, ErrorBufferSize))
  {
    if throws {
      return [Bool(false), Str(InternalValidationError)];
    }
    var nsIn := UntilNul(nsArg);
    var error := new char[ErrorBufferSize](_ => NUL);
    var valid := validator.ValidateXml(xmlDoc, nsIn, error, ErrorBufferSize);
    if valid {
      pushed := [Bool(true)];
    } else {
      ghost var verdict := Validation.Judge(xmlDoc(validator.SelectedContext(nsIn)),
                                            validator.SelectedContext(nsIn).Some?, ErrorBufferSize);
      assert error[..] == ErrorBuffer(verdict.copied);
      var errorStr := ErrorString(error[..]);
      var startPos := FindChar(errorStr, '{');
      var endPos := FindChar(errorStr, '}');
      if startPos.Some? && endPos.Some? && startPos.value < endPos.value {
        errorStr := errorStr[..startPos.value] + errorStr[endPos.value + 1..];
      }
      pushed := [Bool(false), PushString(errorStr)];
    }
  }

  const PemHeader := "-----BEGIN CERTIFICATE-----\n"
  const PemFooter := "\n-----END CERTIFICATE-----"

  /** The certificate text `l_getX509Infos` hands to the X.509 parser: the
      body (up to a first NUL, as `append(const char *)` reads it) between
      the PEM header and footer lines. */
  function PemCertificate(cert: string): (pem: string)
    ensures PemHeader <= pem && |pem| == |PemHeader| + |UntilNul(cert)| + |PemFooter|
    ensures pem[|pem| - |PemFooter|..] == PemFooter
  {
    PemHeader + UntilNul(cert) + PemFooter
  }

  /** The body between the PEM header and footer, if `pem` has both. */
  function PemBody(pem: string): Option<string> {
    if |pem| >= |PemHeader| + |PemFooter| && PemHeader <= pem && pem[|pem| - |PemFooter|..] == PemFooter
    then Some(pem[|PemHeader|..|pem| - |PemFooter|])
    else None
  }

  /** The armour can be taken off again: the body is what was wrapped. */
  lemma PemRoundTrip(cert: string)
    ensures PemBody(PemCertificate(cert)) == Some(UntilNul(cert))
  {
    var pem := PemCertificate(cert);
    assert pem[|PemHeader|..|pem| - |PemFooter|] == UntilNul(cert);
  }
}
