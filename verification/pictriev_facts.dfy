/** Properties of the pictriev decoders that relate several calls or several
    inputs, and sample responses worked through the model. */
module PictrievFacts {
  import Decimal
  import opened Pictriev

  // ---------------------------------------------------------------------------
  // Status gate

  /** With a non-200 status the body is never looked at: any two payloads
      decode to the same bad-status error, in both decoders. */
  lemma BadStatusIgnoresPayload(
    status: int,
    f1: Payload<FindFaceBody>, f2: Payload<FindFaceBody>,
    w1: Payload<WhoisBody>, w2: Payload<WhoisBody>)
    requires status != 200
    ensures ParseFindFaceResult(Response(status, f1)) == ParseFindFaceResult(Response(status, f2)) == Err(BadCode)
    ensures ParseWhoisResult(Response(status, w1)) == ParseWhoisResult(Response(status, w2)) == Err(BadCode)
  {
  }

  // ---------------------------------------------------------------------------
  // findface

  /** A findface fault reports the server's message, or "FindFace" when the
      message is empty; the server's own result code is never shown. */
  lemma FindFaceFaultText(data: FindFaceBody)
    requires data.fault.result != "OK"
    ensures var r := ParseFindFaceResult(Response(200, Decoded(data)));
            && r.Err? && r.error.ServiceFault?
            && r.error.Message() == (if data.fault.msg != "" then data.fault.msg else "FindFace")
  {
  }

  /** An absent result field decodes to the empty string, which is a fault. */
  lemma FindFaceMissingResultIsFault(data: FindFaceBody)
    requires data.fault.result == ""
    ensures ParseFindFaceResult(Response(200, Decoded(data))).Err?
    ensures ParseFindFaceResult(Response(200, Decoded(data))).error.ServiceFault?
  {
  }

  /** Zero faces with result "OK" is a success, not a fault. */
  lemma FindFaceNoFaceIsSuccess(data: FindFaceBody)
    requires data.fault.result == "OK" && data.fields.nFaces == 0
    ensures ParseFindFaceResult(Response(200, Decoded(data))) == Ok(data.fields)
  {
  }

  /** The two decoders mark a fault differently: findface overwrites the
      result code with "FindFace" and leaves the command as decoded, whois
      keeps the result code and sets the command to "Whois". */
  lemma FaultMarkingDiffers(f: Fault, fields: FindFaceResult, w: WhoisBody)
    requires f.result != "OK" && w.fault == f
    ensures ParseFindFaceResult(Response(200, Decoded(FindFaceBody(fields, f))))
              == Err(ServiceFault(Fault(f.command, "FindFace", f.msg)))
    ensures ParseWhoisResult(Response(200, Decoded(w)))
              == Err(ServiceFault(Fault("Whois", f.result, f.msg)))
    ensures f.msg == "" ==>
              && ParseFindFaceResult(Response(200, Decoded(FindFaceBody(fields, f)))).error.Message() == "FindFace"
              && ParseWhoisResult(Response(200, Decoded(w))).error.Message() == f.result
  {
  }

  // ---------------------------------------------------------------------------
  // A `null` body

  /** The two decoders part ways on the JSON body `null`: findface reports a
      "FindFace" fault, while `Whois` as written cannot return at all. */
  lemma WhoisNullBodyUnanswered()
    ensures ParseFindFaceResult(Response(200, JsonNull)) == Err(ServiceFault(Fault("", "FindFace", "")))
    ensures !WhoisAssertionsHold(Response(200, JsonNull))
    ensures ParseWhoisResultNullSafe(Response(200, JsonNull)).Err?
    ensures ParseWhoisResultNullSafe(Response(200, JsonNull)).error.Message() == ""
  {
  }

  /** The null-safe decoder changes nothing on the responses the decoder as
      written can answer. */
  lemma NullSafeAgreesWhereDefined(resp: Response<WhoisBody>)
    requires WhoisAssertionsHold(resp)
    ensures ParseWhoisResultNullSafe(resp) == ParseWhoisResult(resp)
  {
  }

  // ---------------------------------------------------------------------------
  // whois: attrs

  /** Normalisation distributes over concatenation: each tuple is mapped on
      its own and the results stay in the order of their tuples. A corollary
      of the element-wise contract of `NormaliseAttrs`. */
  lemma NormaliseAttrsAppend(a: seq<Quad>, b: seq<Quad>)
    requires WellTypedAttrs(a) && WellTypedAttrs(b)
    ensures WellTypedAttrs(a + b)
    ensures NormaliseAttrs(a + b) == NormaliseAttrs(a) + NormaliseAttrs(b)
  {
    var ab := a + b;
    assert forall i :: 0 <= i < |ab| ==> ab[i] == if i < |a| then a[i] else b[i - |a|];
  }

  /** The first k attributes come from the first k tuples. */
  lemma NormaliseAttrsPrefix(raw: seq<Quad>, k: nat)
    requires WellTypedAttrs(raw) && k <= |raw|
    ensures NormaliseAttrs(raw[..k]) == NormaliseAttrs(raw)[..k]
  {
    assert raw == raw[..k] + raw[k..];
    NormaliseAttrsAppend(raw[..k], raw[k..]);
  }

  /** Position 0 of each tuple is never read: tuples that agree on positions
      1 to 3 normalise to the same attributes. */
  lemma PositionZeroIgnored(a: seq<Quad>, b: seq<Quad>)
    requires WellTypedAttrs(a) && |a| == |b|
    requires forall i :: 0 <= i < |a| ==> a[i][1..] == b[i][1..]
    ensures WellTypedAttrs(b)
    ensures NormaliseAttrs(a) == NormaliseAttrs(b)
  {
    forall i | 0 <= i < |a|
      ensures WellTypedAttr(b[i]) && ToAttr(a[i]) == ToAttr(b[i])
    {
      assert a[i][1] == a[i][1..][0] == b[i][1..][0] == b[i][1];
      assert a[i][2] == a[i][1..][1] == b[i][1..][1] == b[i][2];
      assert a[i][3] == a[i][1..][2] == b[i][1..][2] == b[i][3];
    }
  }

  /** Every reference image id is a canonical decimal spelling that reads
      back as the truncated numeric id. */
  lemma AttrImageIdsParseBack(raw: seq<Quad>, i: nat)
    requires WellTypedAttrs(raw) && i < |raw|
    ensures Decimal.IsCanonicalInt(NormaliseAttrs(raw)[i].imageId)
    ensures Decimal.ParseInt(NormaliseAttrs(raw)[i].imageId) == TruncateToInt(raw[i][3].x)
  {
  }

  // ---------------------------------------------------------------------------
  // whois: gender

  /** Whatever value is stored, the two accessors are complementary. */
  lemma GenderAccessorsComplement(g: Gender)
    ensures g.Man() + g.Woman() == 1.0
    ensures 0.0 <= g.Man() <= 1.0 <==> 0.0 <= g.Woman() <= 1.0
  {
  }

  /** The two encodings of one estimate, ("M", p) and any other label with
      1 - p, give the same gender value. */
  lemma GenderEncodingsAgree(other: string, p: real)
    requires other != "M"
    ensures GenderFromPair("M", p) == GenderFromPair(other, 1.0 - p)
  {
  }

  /** Every language has its own two-letter code. */
  lemma LangCodesDistinct(a: Lang, b: Lang)
    ensures a != b ==> a.Code() != b.Code()
  {
  }

  // ---------------------------------------------------------------------------
  // Worked examples

  lemma ExampleFindFaceSuccess()
    ensures ParseFindFaceResult(Response(200, Decoded(FindFaceBody(
              FindFaceResult("abc", 2, 0.5, 640, 480), Fault("", "OK", "")))))
            == Ok(FindFaceResult("abc", 2, 0.5, 640, 480))
  {
  }

  lemma ExampleFindFaceFault()
    ensures var r := ParseFindFaceResult(Response(200, Decoded(FindFaceBody(
              FindFaceResult("", 0, 0.0, 0, 0), Fault("", "NG", "invalid image")))));
            && r == Err(ServiceFault(Fault("", "FindFace", "invalid image")))
            && r.error.Message() == "invalid image"
  {
  }

  lemma ExampleWhoisFemale()
    ensures var body := WhoisBody(
              31.5, [0.1, 0.9], "",
              Fault("", "OK", ""),
              [[Null, Number(0.87), Text("Jane Doe"), Number(12345.0)]],
              [Text("F"), Number(0.9)]);
            var r := ParseWhoisResult(Response(200, Decoded(body)));
            && r.Ok?
            && r.value.gender.Man() == 0.1
            && r.value.gender.Woman() == 0.9
            && r.value.attrs == [Attr(0.87, "Jane Doe", "12345")]
  {
    var n: nat := 12345;
    assert Decimal.FormatNat(n) == "12345" by {
      assert Decimal.FormatNat(1) == "1";
      assert Decimal.FormatNat(12) == "12";
      assert Decimal.FormatNat(123) == "123";
      assert Decimal.FormatNat(1234) == "1234";
    }
  }
}
