/** The L3 gate: what it makes of the language model's answer, or of its failure to answer. */
module LlmReviewGate {
  import opened Outcomes
  import opened Json
  import Text

  type Payload = map<string, Json>

  /** What the provider call did. `decoded` is what `json.loads` makes of the answer's text, None when
      it is not JSON; `numeral` is what `float` makes of a confidence given as text. */
  datatype Generated =
    | Raised(error: Error)
    | Answered(raw: Json, decoded: Option<Payload>, numeral: Option<real>)

  const REVIEW_PASSED := Str("REVIEW_PASSED")
  const REVIEW_REJECTED := Str("REVIEW_REJECTED")
  const PATCH_PROPOSED := Str("PATCH_PROPOSED")

  function FallbackPass(): Payload {
    map["result_code" := REVIEW_PASSED, "confidence_score" := Num(0.5), "details" := Arr([]), "suggested_patch" := Null]
  }

  predicate Blocking(payload: Payload) {
    Get(payload, "result_code") == REVIEW_REJECTED || Get(payload, "result_code") == PATCH_PROPOSED
  }

  predicate HasDetails(payload: Payload) {
    Get(payload, "details").Arr? && |Get(payload, "details").items| > 0
  }

  predicate HasPatch(payload: Payload) {
    Get(payload, "suggested_patch").Truthy()
  }

  function FloatOf(value: Json, numeral: Option<real>): Outcome<real> {
    match value
    case Num(r) => Ok(r)
    case Bool(b) => Ok(if b then 1.0 else 0.0)
    case Str(_) => if numeral.Some? then Ok(numeral.value) else Raise(Error(ValueKind,
                                                                            "could not convert string to float"))
    case _ => Raise(Error(TypeKind, "float() argument must be a string or a real number"))
  }

  function Normalize(payload: Payload, numeral: Option<real>): Outcome<Payload> {
    if !Get(payload, "result_code").Hashable() then Raise(Error(TypeKind, "unhashable type"))
    else if !Blocking(payload) || HasDetails(payload) || HasPatch(payload) then Ok(payload)
    else
      var given := Get(payload, "confidence_score");
      match if given.Truthy() then FloatOf(given, numeral) else Ok(0.5)
      case Raise(e) => Raise(e)
      case Ok(c) => Ok(FallbackPass()["confidence_score" := Num(if c < 0.5 then c else 0.5)])
  }

  /** The first truthy of the answer's `text` and `reason`, else the empty string. */
  function AnswerText(fields: Payload): Json {
    if Get(fields, "text").Truthy() then Get(fields, "text")
    else if Get(fields, "reason").Truthy() then Get(fields, "reason")
    else Str("")
  }

  function Parse(raw: Json, decoded: Option<Payload>, numeral: Option<real>): Outcome<Payload> {
    if !raw.Obj? then Raise(Error(OtherKind, "object has no attribute 'get'"))
    else if "result_code" in raw.fields then Normalize(raw.fields, numeral)
    else
      var text := AnswerText(raw.fields);
      if text.Str? && Text.StartsWith(Text.Strip(text.text), "{") && decoded.Some?
      then Normalize(decoded.value, numeral)
      else Ok(FallbackPass())
  }

  /** The provider failures the gate turns into an advisory pass. */
  predicate Forgiven(error: Error) {
    error.IsOsError() || error.kind.ValueKind? || error.kind.KeyKind? || error.kind.RuntimeKind?
  }

  function Review(generated: Generated): Outcome<Payload> {
    match generated
    case Raised(e) => if Forgiven(e) then Ok(FallbackPass()) else Raise(e)
    case Answered(raw, decoded, numeral) => Parse(raw, decoded, numeral)
  }

  /** The payload the model itself sent, if any. */
  function Sent(generated: Generated): Option<Payload> {
    if generated.Raised? || !generated.raw.Obj? then None
    else if "result_code" in generated.raw.fields then Some(generated.raw.fields)
    else generated.decoded
  }

  /** Every blocking verdict is the model's own payload and carries details or a patch; conversely a
      blocking payload that carries either is never softened. */
  lemma BlockingCarriesEvidence(generated: Generated)
    ensures var r := Review(generated);
            r.Ok? && Blocking(r.value) ==>
              Sent(generated) == Some(r.value) && (HasDetails(r.value) || HasPatch(r.value))
    ensures generated.Answered? && generated.raw.Obj? && "result_code" in generated.raw.fields
            && Blocking(generated.raw.fields) && (HasDetails(generated.raw.fields) || HasPatch(generated.raw.fields))
            ==> Review(generated) == Ok(generated.raw.fields)
  {
    assert !Blocking(FallbackPass());
  }

  /** The gate fails open: no answer, or no usable answer, is a pass of confidence at most one half.
      Any other code that comes out is exactly the one the model sent. */
  lemma UnusableAnswersPass(generated: Generated)
    ensures Review(generated).Ok? && Sent(generated) != Some(Review(generated).value) ==>
              var p := Review(generated).value;
              && Get(p, "result_code") == REVIEW_PASSED
              && Get(p, "confidence_score").Num? && Get(p, "confidence_score").number <= 0.5
              && !HasDetails(p) && !HasPatch(p)
    ensures generated.Raised? ==> (Review(generated).Ok? <==> Forgiven(generated.error))
  {
  }

  // ----- what comes out, for every answer -----

  /** A pass of the gate's own making. */
  function AdvisoryPass(confidence: real): Payload {
    map["result_code" := Str("REVIEW_PASSED"), "confidence_score" := Num(confidence), "details" := Arr([]),
        "suggested_patch" := Null]
  }

  ghost predicate OpensWithBrace(text: string) {
    exists lead, rest :: Text.AllSpaces(lead) && text == lead + "{" + rest
  }

  /** The payload the gate reads: the answer itself if it carries a result code, else what its text decodes to. */
  ghost predicate Reads(generated: Generated, payload: Payload) {
    && generated.Answered? && generated.raw.Obj?
    && var fields := generated.raw.fields;
       if "result_code" in fields then payload == fields
       else
         && generated.decoded == Some(payload)
         && var text := if Get(fields, "text").Truthy() then Get(fields, "text") else Get(fields, "reason");
            text.Str? && OpensWithBrace(text.text)
  }

  /** A verdict that blocks must be backed by a non-empty list of details or by a patch. */
  predicate Unbacked(payload: Payload) {
    && (Get(payload, "result_code") == Str("REVIEW_REJECTED") || Get(payload, "result_code") == Str("PATCH_PROPOSED"))
    && (Get(payload, "details").Arr? ==> Get(payload, "details") == Arr([]))
    && !Get(payload, "suggested_patch").Truthy()
  }

  /** The confidence a softened verdict keeps: never more than one half. */
  ghost predicate KeepsConfidence(payload: Payload, numeral: Option<real>, confidence: real) {
    match Get(payload, "confidence_score")
    case Num(r) => confidence == if r == 0.0 || r > 0.5 then 0.5 else r
    case Str(s) => if s == "" then confidence == 0.5
                   else numeral.Some? && confidence <= 0.5 && confidence <= numeral.value
                        && (confidence == 0.5 || confidence == numeral.value)
    case _ => confidence == 0.5
  }

  /** No number can be made of it. */
  predicate NoNumber(payload: Payload, numeral: Option<real>) {
    var given := Get(payload, "confidence_score");
    given.Truthy() && (given.Arr? || given.Obj? || (given.Str? && numeral.None?))
  }

  lemma BraceIff(text: string)
    ensures Text.StartsWith(Text.Strip(text), "{") <==> OpensWithBrace(text)
  {
    if OpensWithBrace(text) {
      var lead, rest :| Text.AllSpaces(lead) && text == lead + "{" + rest;
      Text.StripOpens(lead, '{', rest);
    }
    if Text.StartsWith(Text.Strip(text), "{") {
      var lead, rest := Text.StripHasFront(text);
      assert text == lead + "{" + rest;
    }
  }

  /** Every payload the model sent comes out unchanged, unless it is a blocking verdict with nothing to back it: then
      it is an advisory pass that keeps its confidence up to one half. */
  lemma SentComesOutIff(generated: Generated, sent: Payload)
    requires Reads(generated, sent)
    ensures var code := Get(sent, "result_code");
            var r := Review(generated);
            if code.Arr? || code.Obj? then r.Raise? && r.error.kind.TypeKind?
            else
              && (r == Ok(sent) <==> !Unbacked(sent))
              && (Unbacked(sent) ==>
                    && (r.Raise? <==> NoNumber(sent, generated.numeral))
                    && (r.Ok? ==>
                          exists c: real :: r.value == AdvisoryPass(c) && KeepsConfidence(sent, generated.numeral, c)))
  {
    var fields := generated.raw.fields;
    if "result_code" !in fields {
      BraceIff(AnswerText(fields).text);
    }
    var r := Review(generated);
    assert r == Normalize(sent, generated.numeral);
    if Unbacked(sent) && r.Ok? {
      var c := Get(r.value, "confidence_score").number;
      assert r.value == AdvisoryPass(c);
    }
  }

  /** Where there is no payload to read, the gate lets the review pass with confidence one half, except for failures
      it does not know. */
  lemma UnreadIsAPass(generated: Generated)
    requires forall payload: Payload :: !Reads(generated, payload)
    ensures Review(generated)
         == match generated
            case Raised(e) => if e.kind.TypeKind? || e.kind.OtherKind? then Raise(e) else Ok(AdvisoryPass(0.5))
            case Answered(raw, _, _) =>
              if raw.Obj? then Ok(AdvisoryPass(0.5)) else Raise(Error(OtherKind, "object has no attribute 'get'"))
  {
    if generated.Answered? && generated.raw.Obj? {
      var fields := generated.raw.fields;
      assert "result_code" in fields ==> Reads(generated, fields);
      var text := AnswerText(fields);
      if text.Str? && generated.decoded.Some? {
        BraceIff(text.text);
        assert !Reads(generated, generated.decoded.value);
      }
    }
  }
}
