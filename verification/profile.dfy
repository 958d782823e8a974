/** The console profile dialogue: an LLM is asked, turn by turn, for the seven
    required fields; every reply may carry a JSON object whose non-empty values
    are merged into the profile; once the profile is complete the user may add
    free-form details before the dialogue ends. */
module ProfileAgent {
  import opened Wrappers
  import opened Text
  import opened PyJson
  import opened Checks
  import SchemeDisplay

  // ---------------------------------------------------------------------------
  // extract_json
  // ---------------------------------------------------------------------------

  /** Index of the first `c` in `s`. */
  function FirstIndex(s: string, c: char): (r: Option<nat>)
    ensures r.Some? ==> r.value < |s| && s[r.value] == c && forall i :: 0 <= i < r.value ==> s[i] != c
    ensures r.None? ==> forall i :: 0 <= i < |s| ==> s[i] != c
  {
    if |s| == 0 then None
    else if s[0] == c then Some(0)
    else
      match FirstIndex(s[1..], c)
      case None => None
      case Some(k) => Some(k + 1)
  }

  /** Index of the last `c` in `s`. */
  function LastIndex(s: string, c: char): (r: Option<nat>)
    ensures r.Some? ==> r.value < |s| && s[r.value] == c && forall i :: r.value < i < |s| ==> s[i] != c
    ensures r.None? ==> forall i :: 0 <= i < |s| ==> s[i] != c
  {
    if |s| == 0 then None
    else if s[|s| - 1] == c then Some(|s| - 1)
    else LastIndex(s[..|s| - 1], c)
  }

  /** What `re.search(r"\{.*\}", text, re.DOTALL)` matches. The leftmost
      start is the first `{`, and the greedy `.*` runs to the last `}`. There
      is a match exactly when some `}` follows some `{`. */
  function BraceSpan(text: string): (r: Option<string>)
    ensures r.Some? <==> exists i, j :: 0 <= i < j < |text| && text[i] == '{' && text[j] == '}'
    ensures r.Some? ==> exists i, j ::
      && 0 <= i < j < |text| && text[i] == '{' && text[j] == '}' && r.value == text[i..j + 1]
      && (forall k :: 0 <= k < i ==> text[k] != '{') && (forall k :: j < k < |text| ==> text[k] != '}')
  {
    match (FirstIndex(text, '{'), LastIndex(text, '}'))
    case (Some(i), Some(j)) =>
      if i < j then Some(text[i..j + 1])
      else
        assert forall a, b :: 0 <= a < b < |text| && text[a] == '{' && text[b] == '}' ==> i <= a && b <= j;
        None
    case _ => None
  }

  /** `extract_json`: the dict parsed from the brace span, or `{}` when there
      is no span or it does not parse. `parse` stands for `json.loads` on a
      text that starts with `{`: it yields a dict or fails. */
  function ExtractJson(text: string, parse: string -> Option<map<string, Json>>): (r: map<string, Json>)
    ensures BraceSpan(text).None? ==> r == map[]
    ensures BraceSpan(text).Some? && parse(BraceSpan(text).value).None? ==> r == map[]
    ensures BraceSpan(text).Some? && parse(BraceSpan(text).value).Some? ==> r == parse(BraceSpan(text).value).value
  {
    match BraceSpan(text)
    case None => map[]
    case Some(span) =>
      match parse(span)
      case None => map[]
      case Some(d) => d
  }

  /** A reply that wraps one object in text with no `{` before it and no `}`
      after it yields exactly that object's text as the span. */
  lemma BraceSpanOfWrapped(pre: string, body: string, post: string)
    requires forall k :: 0 <= k < |pre| ==> pre[k] != '{'
    requires forall k :: 0 <= k < |post| ==> post[k] != '}'
    ensures BraceSpan(pre + "{" + body + "}" + post) == Some("{" + body + "}")
  {
    var text := pre + "{" + body + "}" + post;
    var i := |pre|;
    var j := |pre| + 1 + |body|;
    assert text[i] == '{' && text[j] == '}';
    assert forall k :: 0 <= k < i ==> text[k] == pre[k];
    assert forall k :: j < k < |text| ==> text[k] == post[k - j - 1];
    assert FirstIndex(text, '{') == Some(i);
    assert LastIndex(text, '}') == Some(j);
    assert text[i..j + 1] == "{" + body + "}";
  }

  /** A reply without any `{` extracts nothing, whatever the parser does. */
  lemma ExtractJsonWithoutBrace(text: string, parse: string -> Option<map<string, Json>>)
    requires forall k :: 0 <= k < |text| ==> text[k] != '{'
    ensures ExtractJson(text, parse) == map[]
  {
  }

  // ---------------------------------------------------------------------------
  // The non-empty merge
  // ---------------------------------------------------------------------------

  /** `info.update({k: v for k, v in data.items() if v})`. */
  function Merge(info: map<string, Json>, data: map<string, Json>): (r: map<string, Json>)
    ensures r.Keys == info.Keys + (set k | k in data && Truthy(data[k]))
    ensures forall k :: k in r ==> r[k] == (if k in data && Truthy(data[k]) then data[k] else info[k])
  {
    info + map k | k in data && Truthy(data[k]) :: data[k]
  }

  /** A field that is set stays set: a later extraction can replace it with
      another non-empty value but never clear it. So the missing fields only
      shrink. */
  lemma MergeKeepsPresent(info: map<string, Json>, data: map<string, Json>)
    ensures forall f :: Present(info, f) ==> Present(Merge(info, data), f)
    ensures forall f :: f in Missing(Merge(info, data)) ==> f in Missing(info)
  {
  }

  // ---------------------------------------------------------------------------
  // Appending additional details
  // ---------------------------------------------------------------------------

  predicate IsCommaOrSpace(c: char) {
    c == ',' || c == ' '
  }

  /** Text that neither starts nor ends with `,` or a space. */
  predicate Clean(s: string) {
    |s| > 0 && !IsCommaOrSpace(s[0]) && !IsCommaOrSpace(s[|s| - 1])
  }

  /** `f"{existing}, {detail}".strip(", ")` as the code writes it. The
      existing value is whatever `get` returns, and before the first detail
      that is the initial `None`, which renders as "None". */
  function AppendAsWritten(existing: Json, detail: string): (r: string) {
    Trim(Str(existing) + ", " + detail, IsCommaOrSpace)
  }

  /** The first detail is recorded behind a spurious "None, ". */
  lemma AppendAsWrittenKeepsNone(detail: string)
    requires Clean(detail)
    ensures AppendAsWritten(JNull, detail) == "None, " + detail
  {
    TrimUntouched("None, " + detail, IsCommaOrSpace);
  }

  /** A concrete instance: the first detail "farmer" is stored as "None, farmer". */
  lemma AppendAsWrittenExample()
    ensures AppendAsWritten(JNull, "farmer") == "None, farmer"
    ensures AppendAsWritten(JNull, "farmer") != "farmer"
  {
    AppendAsWrittenKeepsNone("farmer");
  }

  /** The join the `get(..., "")` default evidently intends: no value yet
      counts as "", so the leading ", " is trimmed away. */
  function AppendDetail(existing: Json, detail: string): (r: string) {
    var prior := if existing.JNull? then "" else Str(existing);
    Trim(prior + ", " + detail, IsCommaOrSpace)
  }

  /** The two joins differ only before the first detail: there the code keeps
      "None, " in front of what the intended join stores. */
  lemma AsWrittenVersusCorrected(existing: Json, detail: string)
    ensures !existing.JNull? ==> AppendAsWritten(existing, detail) == AppendDetail(existing, detail)
    ensures existing.JNull? && Clean(detail) ==>
      AppendAsWritten(existing, detail) == "None, " + AppendDetail(existing, detail)
  {
    if existing.JNull? && Clean(detail) {
      AppendAsWrittenKeepsNone(detail);
      AppendDetailJoins("", detail);
    }
  }

  lemma TrimSeparatorPrefix(detail: string)
    requires Clean(detail)
    ensures Trim(", " + detail, IsCommaOrSpace) == detail
  {
    var t := ", " + detail;
    assert t[1..] == " " + detail;
    assert t[1..][1..] == detail;
    assert TrimLeft(t, IsCommaOrSpace) == detail;
  }

  /** The first detail is stored as it is, and each later one is joined to
      what is already there with ", ". */
  lemma AppendDetailJoins(existing: string, detail: string)
    requires Clean(detail)
    ensures AppendDetail(JNull, detail) == detail
    ensures Clean(existing) ==> AppendDetail(JStr(existing), detail) == existing + ", " + detail
  {
    TrimSeparatorPrefix(detail);
    assert "" + ", " + detail == ", " + detail;
    if Clean(existing) {
      var t := existing + ", " + detail;
      assert t[0] == existing[0] && t[|t| - 1] == detail[|detail| - 1];
      TrimUntouched(t, IsCommaOrSpace);
    }
  }

  // ---------------------------------------------------------------------------
  // collect_user_info, one loop iteration at a time
  // ---------------------------------------------------------------------------

  /** The module-level `user_info`: eight keys, all `None`. */
  const InitialInfo: map<string, Json> := map[
    "name" := JNull, "state" := JNull, "gender" := JNull, "caste" := JNull,
    "occupation" := JNull, "category" := JNull, "income" := JNull,
    "additional_details" := JNull]

  const YesWords: seq<string> := ["yes", "y", "sure"]
  const NoWords: seq<string> := ["no", "nah", "nope", "not", "dont want", "i dont want to"]

  /** The loop's variables between iterations. */
  datatype Dialogue = Dialogue(info: map<string, Json>, history: string, additional: bool, awaiting: bool)

  const Start := Dialogue(InitialInfo, "", false, false)

  /** After one iteration the loop either goes on or has broken out with the
      collected details. */
  datatype Progress = Asking(next: Dialogue) | Collected(info: map<string, Json>)

  /** What every reachable state keeps: a confirmation question or the
      additional phase only once nothing is missing, never both at once.
      `not missing_fields` is the check `ValidateUserProfile` makes. */
  predicate Consistent(d: Dialogue) {
    && ((d.additional || d.awaiting) ==> ValidateUserProfile(d.info))
    && !(d.additional && d.awaiting)
  }

  /** The chat history after one exchange with the LLM. */
  function Exchanged(history: string, input: string, response: string): (r: string) {
    history + "\nUser: " + input + "\nBot: " + response
  }

  /** Recording details touches no required field. */
  lemma DetailsKeepComplete(info: map<string, Json>, v: Json)
    ensures ValidateUserProfile(info["additional_details" := v]) <==> ValidateUserProfile(info)
  {
    var updated := info["additional_details" := v];
    assert forall f :: f in RequiredFields ==> |f| < |"additional_details"|;
    assert forall f :: f in RequiredFields ==> (Present(updated, f) <==> Present(info, f));
  }

  /** The dialogue with `details` recorded as the additional details and
      nothing else changed. */
  function Appended(d: Dialogue, details: string): (n: Dialogue)
    ensures n.info.Keys == d.info.Keys + {"additional_details"}
    ensures n.info["additional_details"] == JStr(details)
    ensures forall k :: k in d.info && k != "additional_details" ==> n.info[k] == d.info[k]
    ensures n.history == d.history && n.additional == d.additional && n.awaiting == d.awaiting
  {
    d.(info := d.info["additional_details" := JStr(details)])
  }

  /** The additional-details phase: a "no" word breaks out, anything else is
      appended. */
  function AdditionalStep(d: Dialogue, input: string): (r: Progress)
    requires d.additional
    ensures Consistent(d) && r.Asking? ==> Consistent(r.next) && r.next.additional
    ensures Consistent(d) && r.Collected? ==> ValidateUserProfile(r.info)
    ensures input in NoWords <==> r == Collected(d.info)
    ensures r.Asking? ==> r.next == Appended(d, AppendAsWritten(Get(d.info, "additional_details", JStr("")), input))
  {
    if input in NoWords then Collected(d.info)
    else
      var details := AppendAsWritten(Get(d.info, "additional_details", JStr("")), input);
      DetailsKeepComplete(d.info, JStr(details));
      Asking(Appended(d, details))
  }

  /** Appending a detail leaves every other field as it was. */
  lemma AdditionalKeepsPresent(d: Dialogue, input: string, f: string)
    requires d.additional && Present(d.info, f) && f != "additional_details"
    ensures var r := AdditionalStep(d, input);
      Present(if r.Asking? then r.next.info else r.info, f)
  {
    var r := AdditionalStep(d, input);
    if r.Asking? {
      assert r.next.info == d.info["additional_details" := r.next.info["additional_details"]];
    }
  }

  /** Waiting for the answer to the confirmation question: yes enters the
      additional phase, a "no" word breaks out, anything else asks again. */
  function ConfirmStep(d: Dialogue, input: string): (r: Progress)
    ensures input in YesWords ==> r == Asking(d.(additional := true, awaiting := false))
    ensures input !in YesWords && input in NoWords ==> r == Collected(d.info)
    ensures input !in YesWords && input !in NoWords ==> r == Asking(d.(awaiting := true))
  {
    if input in YesWords then Asking(d.(additional := true, awaiting := false))
    else if input in NoWords then Collected(d.info)
    else Asking(d.(awaiting := true))
  }

  /** Some field is missing: ask the LLM and merge what its reply extracts. */
  function AskStep(d: Dialogue, input: string, llm: (string, string) -> Result<string>,
                   parse: string -> Option<map<string, Json>>): (r: Result<Progress>)
    ensures llm(input, d.history).Failure? <==> r.Failure?
    ensures r.Failure? ==> r.error == llm(input, d.history).error
    ensures r.Success? ==>
      && r.value.Asking? && r.value.next.additional == d.additional
      && r.value.next.awaiting == d.awaiting
      && forall f :: Present(d.info, f) ==> Present(r.value.next.info, f)
  {
    var response :- llm(input, d.history);
    var data := ExtractJson(response, parse);
    MergeKeepsPresent(d.info, data);
    Success(Asking(d.(info := Merge(d.info, data), history := Exchanged(d.history, input, response))))
  }

  /** One iteration of `collect_user_info`: raise the confirmation question
      once nothing is missing, read a stripped, lower-cased line, and dispatch
      on the phase. `llm(input, history)` is the chain's reply, or the
      exception it raises; `parse` stands for `json.loads`. */
  function Step(d: Dialogue, raw: string, llm: (string, string) -> Result<string>,
                parse: string -> Option<map<string, Json>>): (r: Result<Progress>)
    ensures Consistent(d) && r.Success? && r.value.Asking? ==> Consistent(r.value.next)
    ensures Consistent(d) && r.Success? && r.value.Collected? ==> ValidateUserProfile(r.value.info)
  {
    var awaiting := d.awaiting || (ValidateUserProfile(d.info) && !d.additional);
    var input := SchemeDisplay.Normalized(raw);
    if d.additional then Success(AdditionalStep(d, input))
    else if awaiting then Success(ConfirmStep(d.(awaiting := true), input))
    else
      // Neither phase is on, so some field is still missing.
      AskStep(d, input, llm, parse)
  }

  /** The LLM is consulted exactly while a required field is missing: with a
      complete profile the step does not depend on it, and with a field
      missing its failure is the step's failure. */
  lemma LlmOnlyWhileMissing(d: Dialogue, raw: string, llm1: (string, string) -> Result<string>,
                            llm2: (string, string) -> Result<string>, parse: string -> Option<map<string, Json>>)
    requires Consistent(d)
    ensures ValidateUserProfile(d.info) ==> Step(d, raw, llm1, parse) == Step(d, raw, llm2, parse)
    ensures !ValidateUserProfile(d.info) && llm1(SchemeDisplay.Normalized(raw), d.history).Failure? ==>
      Step(d, raw, llm1, parse) == Failure(llm1(SchemeDisplay.Normalized(raw), d.history).error)
  {
  }

  /** A step never clears a required field. */
  lemma StepKeepsPresent(d: Dialogue, raw: string, llm: (string, string) -> Result<string>,
                         parse: string -> Option<map<string, Json>>, f: string)
    requires Present(d.info, f) && f != "additional_details"
    ensures var r := Step(d, raw, llm, parse);
      r.Success? ==> Present(if r.value.Asking? then r.value.next.info else r.value.info, f)
  {
    var input := SchemeDisplay.Normalized(raw);
    if d.additional {
      AdditionalKeepsPresent(d, input, f);
      assert Step(d, raw, llm, parse) == Success(AdditionalStep(d, input));
    } else if d.awaiting || ValidateUserProfile(d.info) {
      var p := ConfirmStep(d.(awaiting := true), input);
      assert Step(d, raw, llm, parse) == Success(p);
      assert (if p.Asking? then p.next.info else p.info) == d.info;
    } else {
      assert Step(d, raw, llm, parse) == AskStep(d, input, llm, parse);
    }
  }

  /** The confirmation question is raised exactly when nothing is missing and
      the additional phase is off; the answer then decides the turn. */
  lemma ConfirmationTurn(d: Dialogue, raw: string, llm: (string, string) -> Result<string>,
                         parse: string -> Option<map<string, Json>>)
    requires ValidateUserProfile(d.info) && !d.additional
    ensures var input := SchemeDisplay.Normalized(raw);
      var r := Step(d, raw, llm, parse);
      && (input in YesWords ==> r == Success(Asking(d.(additional := true, awaiting := false))))
      && (input !in YesWords && input in NoWords ==> r == Success(Collected(d.info)))
      && (input !in YesWords && input !in NoWords ==> r == Success(Asking(d.(awaiting := true))))
  {
  }

  /** In the additional phase a "no" word ends the dialogue and anything else
      is appended to the details. */
  lemma AdditionalTurn(d: Dialogue, raw: string, llm: (string, string) -> Result<string>,
                       parse: string -> Option<map<string, Json>>)
    requires d.additional
    ensures var input := SchemeDisplay.Normalized(raw);
      var r := Step(d, raw, llm, parse);
      && (input in NoWords ==> r == Success(Collected(d.info)))
      && (input !in NoWords ==>
            r == Success(Asking(d.(info := d.info["additional_details" :=
                 JStr(AppendAsWritten(Get(d.info, "additional_details", JStr("")), input))]))))
  {
  }

  /** The first detail of the phase, while `additional_details` still holds
      the initial `None`, is stored behind "None, ". */
  lemma FirstDetailStoredAfterNone(d: Dialogue, raw: string, llm: (string, string) -> Result<string>,
                                   parse: string -> Option<map<string, Json>>)
    requires d.additional && "additional_details" in d.info && d.info["additional_details"] == JNull
    requires Clean(SchemeDisplay.Normalized(raw)) && SchemeDisplay.Normalized(raw) !in NoWords
    ensures var r := Step(d, raw, llm, parse);
      && r.Success? && r.value.Asking?
      && r.value.next.info["additional_details"] == JStr("None, " + SchemeDisplay.Normalized(raw))
  {
    var input := SchemeDisplay.Normalized(raw);
    AppendAsWrittenKeepsNone(input);
    assert Step(d, raw, llm, parse) == Success(AdditionalStep(d, input));
  }

  /** The loop over a sequence of console inputs: it stops at the first break
      or exception; `Asking` means the inputs ran out first. */
  function Collect(d: Dialogue, inputs: seq<string>, llm: (string, string) -> Result<string>,
                   parse: string -> Option<map<string, Json>>): (r: Result<Progress>)
    decreases |inputs|
    ensures Consistent(d) && r.Success? && r.value.Collected? ==> ValidateUserProfile(r.value.info)
    ensures Consistent(d) && r.Success? && r.value.Asking? ==> Consistent(r.value.next)
  {
    if |inputs| == 0 then Success(Asking(d))
    else
      var p :- Step(d, inputs[0], llm, parse);
      match p
      case Collected(info) => Success(Collected(info))
      case Asking(next) => Collect(next, inputs[1..], llm, parse)
  }

  /** `get_user_profile_via_chat`: whatever profile the dialogue returns has
      every required field, so the workflow's validation accepts it. */
  lemma CollectedProfileIsValid(inputs: seq<string>, llm: (string, string) -> Result<string>,
                                parse: string -> Option<map<string, Json>>)
    ensures var r := Collect(Start, inputs, llm, parse);
      r.Success? && r.value.Collected? ==> ValidateUserProfile(r.value.info)
  {
    assert !ValidateUserProfile(InitialInfo) by {
      assert "name" in RequiredFields && !Present(InitialInfo, "name");
    }
  }
}
