/** Response decoding of the pictriev face-recognition client.

    The service answers both of its commands (`findface`, `whoissim`) with one
    JSON object that carries the success fields and the fault fields side by
    side; a `result` field equal to "OK" is the only success signal. The
    client decodes that object into a Go struct that embeds both shapes and
    then picks one. Here the already-decoded object is the input (JSON parsing
    itself is a library and is represented by `Payload`), and each decoder is
    a pure function returning exactly one of a result, a bad-status error, a
    parse error or a service `Fault`. */
module Pictriev {
  import Decimal

  // ---------------------------------------------------------------------------
  // Values produced by encoding/json

  /** A JSON value as encoding/json stores it in an `interface{}`: nil, bool,
      float64, string, or an array/object whose content is never inspected here. */
  datatype Any = Null | Bool(b: bool) | Number(x: real) | Text(s: string) | Composite

  /** A Go `[4]interface{}`: always exactly four elements (missing ones are nil). */
  type Quad = t: seq<Any> | |t| == 4 witness [Null, Null, Null, Null]

  /** A Go `[2]interface{}`. */
  type Pair = t: seq<Any> | |t| == 2 witness [Null, Null]

  /** What the JSON decoder was given and did: a decoded object, the JSON
      literal `null` (which is valid JSON, so decoding succeeds), or a parse
      failure whose cause is opaque here. */
  datatype Payload<T> = Decoded(body: T) | JsonNull | Undecodable(reason: string)

  /** The HTTP response as the decoders see it. */
  datatype Response<T> = Response(status: int, payload: Payload<T>)

  // ---------------------------------------------------------------------------
  // Result model

  datatype FindFaceResult = FindFaceResult(
    imageId: string,
    nFaces: int,      // 0 when no face could be found; still a success
    pTime: real,
    width: int,
    height: int)

  /** One ranked identity guess. */
  datatype Attr = Attr(p: real, name: string, imageId: string)

  /** Male likelihood; the female likelihood is its complement. */
  datatype Gender = Gender(stored: real) {
    /** The male likelihood: the stored value. It and `Woman()` sum to 1, and
        it is the female likelihood of the complementary value. */
    function Man(): (m: real)
      ensures m + Woman() == 1.0
      ensures m == Gender(1.0 - stored).Woman()
    {
      stored
    }

    /** The female likelihood: what is left of 1 after the stored value. */
    function Woman(): (w: real)
      ensures w + stored == 1.0
    {
      1.0 - stored
    }
  }

  /** Label languages the whois command accepts. */
  datatype Lang = De | En | Es | Fr | Id | It | Ja | Ko | Pl | Pt | Ru | Th | Tr | Zh {
    /** The two-letter code sent as the `lang` query parameter. */
    function Code(): (c: string)
      ensures |c| == 2
    {
      match this
      case De => "de"
      case En => "en"
      case Es => "es"
      case Fr => "fr"
      case Id => "id"
      case It => "it"
      case Ja => "ja"
      case Ko => "ko"
      case Pl => "pl"
      case Pt => "pt"
      case Ru => "ru"
      case Th => "th"
      case Tr => "tr"
      case Zh => "zh"
    }
  }

  /** `lang` is a plain string: it is filled from the response's "lang" key,
      not from the language the caller asked for. */
  datatype WhoisResult = WhoisResult(
    age: real,
    ageDist: seq<real>,
    attrs: seq<Attr>,
    gender: Gender,
    lang: string)

  /** The service's failure report plus the client-side command name. */
  datatype Fault = Fault(command: string, result: string, msg: string) {
    /** The error text: the message when there is one, else the result code. */
    function Error(): (e: string)
      ensures |msg| > 0 ==> e == msg
      ensures |msg| == 0 ==> e == result
    {
      if |msg| > 0 then msg else result
    }
  }

  const BadCodeMessage: string := "server does not respond propertly"

  datatype Error =
    | BadCode                        // HTTP status other than 200
    | DecodeError(reason: string)    // the JSON decoder failed
    | ServiceFault(fault: Fault)     // the service reported a failure
  {
    function Message(): (m: string)
      ensures ServiceFault? ==> m == fault.Error()
      ensures DecodeError? ==> m == reason
      ensures BadCode? ==> m == BadCodeMessage
    {
      match this
      case BadCode => BadCodeMessage
      case DecodeError(r) => r
      case ServiceFault(f) => f.Error()
    }
  }

  /** Exactly one of a result or an error: never both, never neither. */
  datatype Outcome<T> = Ok(value: T) | Err(error: Error)

  // ---------------------------------------------------------------------------
  // findface

  /** The anonymous struct the findface response is decoded into: the result
      fields and the fault fields embedded side by side. `fault.command` has
      no JSON tag, so it is empty unless the response has a "command" key. */
  datatype FindFaceBody = FindFaceBody(fields: FindFaceResult, fault: Fault)

  /** The freshly allocated struct, before the decoder has stored anything. */
  const ZeroFindFaceBody: FindFaceBody := FindFaceBody(FindFaceResult("", 0, 0.0, 0, 0), Fault("", "", ""))

  /** The sentinel check on a decoded findface body. */
  function FindFaceFromBody(data: FindFaceBody): (r: Outcome<FindFaceResult>)
    ensures r.Ok? <==> data.fault.result == "OK"
    ensures r.Ok? ==> r.value == data.fields
    ensures r.Err? ==> r.error == ServiceFault(Fault(data.fault.command, "FindFace", data.fault.msg))
  {
    if data.fault.result != "OK" then
      Err(ServiceFault(data.fault.(result := "FindFace")))
    else
      Ok(data.fields)
  }

  /** `Decode(data)` is handed the struct pointer itself, so a JSON `null`
      body leaves the zero struct in place and decodes as a fault. */
  function ParseFindFaceResult(resp: Response<FindFaceBody>): (r: Outcome<FindFaceResult>)
    // status gate: nothing is decoded unless the status is 200
    ensures resp.status != 200 <==> r == Err(BadCode)
    ensures resp.status == 200 && resp.payload.Undecodable? ==>
              r == Err(DecodeError(resp.payload.reason))
    // the "OK" sentinel decides success, and a success carries the fields unchanged
    ensures r.Ok? <==>
              resp.status == 200 && resp.payload.Decoded? && resp.payload.body.fault.result == "OK"
    ensures r.Ok? ==> r.value == resp.payload.body.fields
    // any other result code (including an absent one) is a fault renamed "FindFace"
    ensures r.Err? && r.error.ServiceFault? <==>
              && resp.status == 200
              && (resp.payload.JsonNull? || (resp.payload.Decoded? && resp.payload.body.fault.result != "OK"))
    ensures r.Err? && r.error.ServiceFault? && resp.payload.Decoded? ==>
              && r.error.fault.result == "FindFace"
              && r.error.fault.msg == resp.payload.body.fault.msg
              && r.error.fault.command == resp.payload.body.fault.command
    ensures resp.status == 200 && resp.payload.JsonNull? ==>
              r == Err(ServiceFault(Fault("", "FindFace", "")))
  {
    if resp.status != 200 then Err(BadCode)
    else match resp.payload
      case Undecodable(reason) => Err(DecodeError(reason))
      case JsonNull => FindFaceFromBody(ZeroFindFaceBody)
      case Decoded(data) => FindFaceFromBody(data)
  }

  // ---------------------------------------------------------------------------
  // whoissim

  /** The struct the whois response is decoded into. `attrs` and `gender`
      arrive as untyped tuples and are normalised after the sentinel check;
      the embedded `Attrs`/`Gender` fields are always overwritten and are not
      represented. */
  datatype WhoisBody = WhoisBody(
    age: real,
    ageDist: seq<real>,
    lang: string,
    fault: Fault,
    rawAttrs: seq<Quad>,
    rawGender: Pair)

  predicate InInt64(n: int) {
    -0x8000_0000_0000_0000 <= n < 0x8000_0000_0000_0000
  }

  /** Go's `int64(f)` conversion: the fraction is discarded, rounding toward zero. */
  function TruncateToInt(x: real): (n: int)
    ensures 0.0 <= x ==> n as real <= x < n as real + 1.0
    ensures x < 0.0 ==> n as real - 1.0 < x <= n as real
  {
    if x >= 0.0 then x.Floor else -((-x).Floor)
  }

  /** Positions 1 to 3 of an attrs tuple hold what the type assertions expect,
      and the id converts to int64 without leaving its range. */
  predicate WellTypedAttr(t: Quad) {
    && t[1].Number?
    && t[2].Text?
    && t[3].Number?
    && InInt64(TruncateToInt(t[3].x))
  }

  predicate WellTypedGender(g: Pair) {
    g[0].Text? && g[1].Number?
  }

  predicate WellTypedAttrs(raw: seq<Quad>) {
    forall i :: 0 <= i < |raw| ==> WellTypedAttr(raw[i])
  }

  predicate WellTypedWhois(data: WhoisBody) {
    WellTypedAttrs(data.rawAttrs) && WellTypedGender(data.rawGender)
  }

  /** The type assertions run only on the success path: a body whose result
      is "OK" must carry well-typed tuples. */
  predicate WhoisBodyAssertionsHold(data: WhoisBody) {
    data.fault.result == "OK" ==> WellTypedWhois(data)
  }

  /** What `Whois` needs of a response to return at all: a 200 response must
      not have the body `null` (its `data` pointer would be nil when
      `data.Result` is read), and an "OK" body must be well typed. */
  predicate WhoisAssertionsHold(resp: Response<WhoisBody>) {
    resp.status == 200 ==>
      && !resp.payload.JsonNull?
      && (resp.payload.Decoded? ==> WhoisBodyAssertionsHold(resp.payload.body))
  }

  /** One attrs tuple as a typed record; position 0 is not read. */
  function ToAttr(t: Quad): (a: Attr)
    requires WellTypedAttr(t)
    ensures a.p == t[1].x
    ensures a.name == t[2].s
    ensures Decimal.IsCanonicalInt(a.imageId)
    ensures Decimal.ParseInt(a.imageId) == TruncateToInt(t[3].x)
  {
    var id := TruncateToInt(t[3].x);
    Decimal.FormatIntRoundTrip(id);
    Attr(t[1].x, t[2].s, Decimal.FormatInt(id))
  }

  /** The attrs tuples mapped one for one, in the order received. */
  function NormaliseAttrs(raw: seq<Quad>): (attrs: seq<Attr>)
    requires WellTypedAttrs(raw)
    ensures |attrs| == |raw|
    ensures forall i :: 0 <= i < |raw| ==> attrs[i] == ToAttr(raw[i])
    decreases |raw|
  {
    if |raw| == 0 then []
    else NormaliseAttrs(raw[..|raw| - 1]) + [ToAttr(raw[|raw| - 1])]
  }

  /** The gender pair folded into one male likelihood. */
  function GenderFromPair(category: string, p: real): (g: Gender)
    ensures g.Man() + g.Woman() == 1.0
    ensures category == "M" ==> g.Man() == p && g.Woman() == 1.0 - p
    ensures category != "M" ==> g.Woman() == p && g.Man() == 1.0 - p
  {
    if category == "M" then Gender(p) else Gender(1.0 - p)
  }

  /** A fresh whois struct, as the corrected decoder would leave it on `null`. */
  const ZeroWhoisBody: WhoisBody := WhoisBody(0.0, [], "", Fault("", "", ""), [], [Null, Null])

  /** The sentinel check and normalisation of a decoded whois body. */
  function WhoisFromBody(data: WhoisBody): (r: Outcome<WhoisResult>)
    requires WhoisBodyAssertionsHold(data)
    ensures r.Ok? <==> data.fault.result == "OK"
    // a fault keeps the server's result and message and names the command
    ensures r.Err? ==> r.error == ServiceFault(Fault("Whois", data.fault.result, data.fault.msg))
    // a success passes age, histogram and lang through and normalises the tuples
    ensures r.Ok? ==>
              && r.value.age == data.age
              && r.value.ageDist == data.ageDist
              && r.value.lang == data.lang
              && |r.value.attrs| == |data.rawAttrs|
              && (forall i :: 0 <= i < |data.rawAttrs| ==>
                    && r.value.attrs[i].p == data.rawAttrs[i][1].x
                    && r.value.attrs[i].name == data.rawAttrs[i][2].s
                    && r.value.attrs[i].imageId == Decimal.FormatInt(TruncateToInt(data.rawAttrs[i][3].x)))
              && (data.rawGender[0].s == "M" ==> r.value.gender.Man() == data.rawGender[1].x)
              && (data.rawGender[0].s != "M" ==> r.value.gender.Woman() == data.rawGender[1].x)
  {
    if data.fault.result != "OK" then
      Err(ServiceFault(data.fault.(command := "Whois")))
    else
      Ok(WhoisResult(
        data.age,
        data.ageDist,
        NormaliseAttrs(data.rawAttrs),
        GenderFromPair(data.rawGender[0].s, data.rawGender[1].x),
        data.lang))
  }

  /** The decoder as written: it hands `Decode` a pointer to the struct
      pointer, so a `null` body is outside what it can answer (the requires
      excludes it) and every other response is decoded as findface does. */
  function ParseWhoisResult(resp: Response<WhoisBody>): (r: Outcome<WhoisResult>)
    requires WhoisAssertionsHold(resp)
    // status gate and parse failure, as for findface
    ensures resp.status != 200 <==> r == Err(BadCode)
    ensures resp.status == 200 && resp.payload.Undecodable? ==>
              r == Err(DecodeError(resp.payload.reason))
    // the "OK" sentinel decides success
    ensures r.Ok? <==>
              resp.status == 200 && resp.payload.Decoded? && resp.payload.body.fault.result == "OK"
    ensures r.Err? && r.error.ServiceFault? <==>
              resp.status == 200 && resp.payload.Decoded? && resp.payload.body.fault.result != "OK"
    // on a decoded body, the sentinel check and normalisation of `WhoisFromBody`
    ensures resp.status == 200 && resp.payload.Decoded? ==> r == WhoisFromBody(resp.payload.body)
  {
    if resp.status != 200 then Err(BadCode)
    else match resp.payload
      case Undecodable(reason) => Err(DecodeError(reason))
      case JsonNull => assert false; Err(BadCode)
      case Decoded(data) => WhoisFromBody(data)
  }

  /** The decoder with `Decode(data)` in place of `Decode(&data)`: a `null`
      body leaves the zero struct in place, whose empty result is a fault,
      exactly as findface treats it. */
  function ParseWhoisResultNullSafe(resp: Response<WhoisBody>): (r: Outcome<WhoisResult>)
    requires resp.status == 200 && resp.payload.Decoded? ==> WhoisBodyAssertionsHold(resp.payload.body)
    ensures resp.status != 200 <==> r == Err(BadCode)
    ensures resp.status == 200 && resp.payload.Undecodable? ==>
              r == Err(DecodeError(resp.payload.reason))
    ensures r.Ok? <==>
              resp.status == 200 && resp.payload.Decoded? && resp.payload.body.fault.result == "OK"
    ensures resp.status == 200 && resp.payload.JsonNull? ==>
              r == Err(ServiceFault(Fault("Whois", "", "")))
    ensures resp.status == 200 && resp.payload.Decoded? ==> r == WhoisFromBody(resp.payload.body)
  {
    if resp.status != 200 then Err(BadCode)
    else match resp.payload
      case Undecodable(reason) => Err(DecodeError(reason))
      case JsonNull => WhoisFromBody(ZeroWhoisBody)
      case Decoded(data) => WhoisFromBody(data)
  }
}
