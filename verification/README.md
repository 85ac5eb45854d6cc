# pictriev response decoding, in Dafny

`pictriev` is a Go client for a face-recognition web service. Its two
commands, `findface` (detect faces in an image) and `whoissim` (rank identity
guesses for one detected face), answer with a single JSON object. That object
carries the success fields and the fault fields side by side. The client
decodes it and then picks one of them on the `result` sentinel, which must equal
`"OK"`. For `whoissim` it also normalises two untyped tuple fields: `attrs`
(4-element arrays) and `gender` (a label/probability pair).

This project models the steps that run after `encoding/json` has produced a
value, and proves their contracts:

- `decimal.dfy`, module `Decimal`: `strconv.FormatInt(n, 10)` and a parse
  that reads its output back. The round trip is proved in both directions.
- `pictriev.dfy`, module `Pictriev`: the data model (`FindFaceResult`, `Attr`,
  `Gender`, `Lang`, `WhoisResult`, `Fault`) and `Fault.Error`. It also holds
  the status gate, the Go `int64(float64)` truncation, and the two decoders
  `ParseFindFaceResult` and `ParseWhoisResult`. Each decoder is a pure
  function. It returns exactly one of a result, `BadCode`, a JSON decode
  error, or a `ServiceFault`. The exceptions are `Whois` on a `null` body
  (see "## Findings") and `Whois` on an "OK" body with ill-typed tuples.
  Both panic, and `ParseWhoisResult`'s requires excludes them.
- `pictriev_facts.dfy`, module `PictrievFacts`: lemmas that relate several
  inputs or both decoders, plus sample responses worked through the model.

The decoded JSON object is the input. A JSON parse failure is an opaque
`Undecodable(reason)` payload. The JSON literal `null` is valid JSON and is
its own payload case, `JsonNull`. A JSON value held in an `interface{}` is the
datatype `Any`. The Go arrays `[4]interface{}` and `[2]interface{}` are the
subset types `Quad` and `Pair`. `float64` is modelled as `real`.

Quirks of the code that the model keeps as written:

- The two decoders mark a fault differently. On a `findface` fault the code
  overwrites `Result` with `"FindFace"` and leaves `Command` as decoded
  (pictriev.go:84). `Whois` keeps `Result` and sets `Command` to `"Whois"`
  (pictriev.go:179). Findface most likely meant to set `Command` the same
  way. As written, a `findface` fault with an empty message reports
  `"FindFace"`, not the server's code (`PictrievFacts.FaultMarkingDiffers`).
- `Fault.Command` has no JSON tag, so `encoding/json` fills it from a
  `"command"` key if the response has one. On the `findface` fault path that
  value passes through. It is empty when the key is absent.
- `WhoisResult.Lang` has no JSON tag either. It is filled from the response's
  `"lang"` key, never from the language the caller requested. The model's
  `WhoisResult.lang` is therefore a string copied from the response.
- The `Lang` enumeration only models the request parameter (pictriev.go:128-145,
  used at :156). No decoder uses it. Go's `Lang` is an open string type, and
  the enumeration is narrower: it holds only the fourteen named constants.

## Model

| member | source | states |
|---|---|---|
| Pictriev.Fault.Error | pictriev.go:60-65 | the error text is the message when it is non-empty, otherwise the result code |
| Pictriev.Error.Message | pictriev.go:67 | a bad status reads as the fixed "server does not respond propertly" text; a service fault reads as its `Fault.Error` text |
| Pictriev.FindFaceFromBody | pictriev.go:83-88 | a decoded findface body succeeds exactly when `result` is "OK", returning the five fields unchanged; otherwise it is a fault with result "FindFace", the server's message and the decoded command |
| Pictriev.ParseFindFaceResult | pictriev.go:69-89 | a non-200 status gives exactly `BadCode`, whatever the body; a parse failure is returned as is; success holds exactly when `result` is "OK", and then the five fields are returned unchanged; any other result, including an absent one, gives a fault with result "FindFace", the server's message and the decoded command; a `null` body leaves the zero struct and gives the fault ("", "FindFace", "") |
| PictrievFacts.BadStatusIgnoresPayload | pictriev.go:71-73 | with a status other than 200, any two payloads decode to the same `BadCode` error in both decoders, so the body is never consulted |
| PictrievFacts.FindFaceFaultText | pictriev.go:83-85 | a findface fault's error text is the server's message, or "FindFace" when that message is empty |
| PictrievFacts.FindFaceMissingResultIsFault | pictriev.go:83 | an absent (empty) result field is a fault, not a success |
| PictrievFacts.FindFaceNoFaceIsSuccess | pictriev.go:22-23 | zero faces with result "OK" is a success carrying nFaces = 0 |
| PictrievFacts.FaultMarkingDiffers | pictriev.go:178-180 | for the same non-"OK" fault, findface replaces the result code with "FindFace" and keeps the command; whois keeps the result code and sets the command to "Whois"; with an empty message the two error texts differ |
| Pictriev.TruncateToInt | pictriev.go:188 | `int64(f)` drops the fraction toward zero: the result is within one of the input, on the zero side |
| Decimal.FormatNat | pictriev.go:188 | the decimal digits of a natural number are non-empty digits with no leading zero, and start with '0' only for zero |
| Decimal.FormatInt | pictriev.go:188 | base-10 formatting gives a canonical spelling with a '-' exactly for negative numbers and "0" exactly for zero |
| Decimal.FormatIntRoundTrip | pictriev.go:188 | parsing the formatted integer gives the integer back |
| Decimal.CanonicalIntRoundTrip | pictriev.go:188 | every canonical spelling is the formatting of the integer it denotes, so formatting produces exactly the canonical spellings |
| Decimal.FormatIntInjective | pictriev.go:188 | distinct ids get distinct decimal strings |
| Pictriev.ToAttr | pictriev.go:185-189 | one tuple becomes an `Attr` whose probability is position 1, whose name is position 2, and whose image id is a canonical decimal that reads back as the truncated position 3 |
| Pictriev.NormaliseAttrs | pictriev.go:183-190 | the attribute list has the tuples' length, and element i is built from tuple i |
| PictrievFacts.NormaliseAttrsAppend | pictriev.go:183-190 | normalising a concatenation gives the concatenation of the normalised parts, so order is preserved and each tuple maps on its own |
| PictrievFacts.NormaliseAttrsPrefix | pictriev.go:183-190 | the first k attributes are exactly the normalisation of the first k tuples |
| PictrievFacts.PositionZeroIgnored | pictriev.go:185-189 | tuples that agree on positions 1 to 3 give equal attribute lists; position 0 is never read |
| PictrievFacts.AttrImageIdsParseBack | pictriev.go:188 | every attribute image id is a canonical decimal string that reads back as the truncated numeric id |
| Pictriev.GenderFromPair | pictriev.go:192-198 | label "M" stores p, so Man() = p; any other label makes Woman() = p; the two accessors always sum to 1 |
| Pictriev.Gender.Man | pictriev.go:37-39 | returns the stored value; it sums to 1 with `Woman()` and equals the female likelihood of the complementary value (see also `PictrievFacts.GenderAccessorsComplement`) |
| Pictriev.Gender.Woman | pictriev.go:41-43 | returns 1 minus the stored value, so the stored value and the female likelihood sum to 1 |
| PictrievFacts.GenderAccessorsComplement | pictriev.go:37-43 | Man() and Woman() of any gender value sum to 1, and one lies in [0,1] exactly when the other does |
| PictrievFacts.GenderEncodingsAgree | pictriev.go:194-198 | ("M", p) and (any other label, 1 - p) decode to the same gender value |
| Pictriev.WhoisFromBody | pictriev.go:178-200 | a decoded whois body succeeds exactly when `result` is "OK"; a fault keeps the server's result and message and sets the command to "Whois"; a success passes age, age histogram and lang through unchanged, maps the attrs tuples element by element, and folds the gender pair |
| Pictriev.ParseWhoisResult | pictriev.go:162-200 | same status gate, parse-error path and "OK" sentinel as findface, with a decoded body handled as `WhoisFromBody` states; a 200 response with a `null` body is excluded by the requires, because the code panics on it |
| Pictriev.ParseWhoisResultNullSafe | pictriev.go:173-181 | with `Decode(data)` in place of `Decode(&data)`, a `null` body yields the fault ("Whois", "", ""), and every other response is decoded as `ParseWhoisResult` decodes it |
| PictrievFacts.WhoisNullBodyUnanswered | pictriev.go:174-178 | on a 200 response with a `null` body, findface returns a "FindFace" fault, the whois decoder as written has no defined answer, and the null-safe decoder returns a fault |
| PictrievFacts.NullSafeAgreesWhereDefined | pictriev.go:162-200 | wherever the decoder as written returns, the null-safe decoder returns the same outcome |
| Pictriev.Lang.Code | pictriev.go:128-145 | every language is sent as a two-letter code |
| PictrievFacts.LangCodesDistinct | pictriev.go:130-145 | different languages have different codes |
| PictrievFacts.ExampleFindFaceSuccess | pictriev.go:83-88 | the sample success response decodes to its five fields |
| PictrievFacts.ExampleFindFaceFault | pictriev.go:83-85 | the sample "NG"/"invalid image" response decodes to a fault with result "FindFace" whose text is "invalid image" |
| PictrievFacts.ExampleWhoisFemale | pictriev.go:183-198 | an ("F", 0.9) gender decodes to Man() = 0.1 and Woman() = 0.9, and the tuple (_, 0.87, "Jane Doe", 12345.0) decodes to image id "12345" |

## Left out

- Network I/O is not modelled: `dictate`, `http.Get` and `http.Post`, URL query assembly with `url.Values.Encode`, and the request-building parts of `FindFaceImageURL`, `FindFaceImage` and `Whois` (pictriev.go:15-18, 91-100, 119-125, 152-161). The decoders take the status code and decoded body as inputs.
- Multipart body construction in `FindFaceImage` (pictriev.go:102-118) is plain I/O over `mime/multipart` and is left out.
- JSON parsing (`json.NewDecoder(...).Decode`) is a library call. Its result is the `Payload` input, and a parse failure is an opaque reason string. Go's case-insensitive key matching and integer-overflow checks on `nfaces`, `sx` and `sy` are part of that library.
- `resp.Body.Close` is a resource release with no effect on the result.
- Go panics on a wrongly typed tuple element are not modelled. `ParseWhoisResult` instead requires `WhoisAssertionsHold`. On the "OK" path, positions 1 and 3 of each attrs tuple must be numbers, position 2 a string, and the gender pair (string, number). The truncated id in position 3 must also lie in the int64 range. The fault path asserts nothing and requires nothing.
- Pictriev.WellTypedAttr, Pictriev.ToAttr, Pictriev.NormaliseAttrs, Pictriev.WhoisFromBody, Pictriev.ParseWhoisResult, Pictriev.ParseWhoisResultNullSafe: these require the truncated id to lie in the int64 range. Outside that range Go does not panic: `int64(f)` returns an implementation-defined value, which the model does not represent. NaN and infinities do not exist over the reals. `Pictriev.TruncateToInt` itself requires nothing.
- Pictriev.ParseWhoisResult: a 200 response whose body is `null` is excluded by its requires, because the code dereferences a nil pointer there (pictriev.go:174-178). `Pictriev.ParseWhoisResultNullSafe` gives that input the answer evidently intended (see "## Findings").
- Pictriev.GenderFromPair: the arithmetic is exact over reals. With float64, `1 - p` rounds, so `Man() + Woman() == 1` holds only approximately.
- The Go `int` fields `nFaces`, `width` and `height` are modelled as unbounded `int`. Go's `int` is fixed-width, and `encoding/json` turns an out-of-range value into a decode error (`Undecodable`), so every value the decoders see fits. No arithmetic is done on them.

## Findings

| source | as written | input that shows it | evidently intended | confidence | as-written member | corrected member |
|---|---|---|---|---|---|---|
| pictriev.go:174 | `dec.Decode(&data)` passes a pointer to the already allocated struct pointer; on the body `null`, encoding/json sets `data` to nil, and reading `data.Result` at :178 dereferences nil | HTTP 200 with body `null` (`PictrievFacts.WhoisNullBodyUnanswered`) | `dec.Decode(data)` as findface does at :80: the zero struct stays in place and the empty result is a fault | medium, not executed | Pictriev.ParseWhoisResult | Pictriev.ParseWhoisResultNullSafe |
