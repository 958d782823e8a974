/** The second variant of the profile dialogue. It sends every turn to the
    LLM, except in the additional-details phase. It asks for confirmation only
    after a reply's JSON completes the profile, and it reads the yes/no answer
    only from turns whose reply carries no JSON. */
module QueryAgent {
  import opened Wrappers
  import opened Text
  import opened PyJson
  import opened Checks
  import opened ProfileAgent
  import SchemeDisplay

  /** This variant ends the additional phase only on these three words. */
  const StopWords: seq<string> := ["no", "nah", "nope"]

  /** What every reachable state keeps: a confirmation question only once
      nothing is missing, and the additional phase only after one. The flag
      `awaiting` is never cleared in this variant. */
  predicate Settled(d: Dialogue) {
    && (d.awaiting ==> ValidateUserProfile(d.info))
    && (d.additional ==> d.awaiting)
  }

  /** The additional phase. The check for a stop word uses the stripped,
      lower-cased line. The appended detail is only stripped and keeps its case. */
  function ExtraStep(d: Dialogue, raw: string): (r: Progress)
    requires d.additional
    ensures Settled(d) && r.Asking? ==> Settled(r.next) && r.next.additional
    ensures Settled(d) && r.Collected? ==> ValidateUserProfile(r.info)
    ensures SchemeDisplay.Normalized(raw) in StopWords <==> r == Collected(d.info)
    ensures r.Asking? ==> r.next == Appended(d, AppendAsWritten(Get(d.info, "additional_details", JStr("")), Strip(raw)))
  {
    if SchemeDisplay.Normalized(raw) in StopWords then Collected(d.info)
    else
      var details := AppendAsWritten(Get(d.info, "additional_details", JStr("")), Strip(raw));
      DetailsKeepComplete(d.info, JStr(details));
      Asking(Appended(d, details))
  }

  /** Any other turn. The raw line goes to the LLM. A reply with JSON is
      merged, and the confirmation flag is raised once the profile is complete.
      A reply without JSON, while awaiting, lets the line answer the question. */
  function ChatStep(d: Dialogue, raw: string, llm: (string, string) -> Result<string>,
                    parse: string -> Option<map<string, Json>>): (r: Result<Progress>)
    ensures llm(raw, d.history).Failure? <==> r.Failure?
    ensures Settled(d) && r.Success? && r.value.Asking? ==> Settled(r.value.next)
    ensures Settled(d) && r.Success? && r.value.Collected? ==> ValidateUserProfile(r.value.info)
  {
    var response :- llm(raw, d.history);
    var history := Exchanged(d.history, raw, response);
    var data := ExtractJson(response, parse);
    if |data| > 0 then
      var info := Merge(d.info, data);
      MergeKeepsPresent(d.info, data);
      Success(Asking(d.(info := info, history := history, awaiting := d.awaiting || ValidateUserProfile(info))))
    else if d.awaiting then
      if SchemeDisplay.Normalized(raw) in YesWords then Success(Asking(d.(history := history, additional := true)))
      else Success(Collected(d.info))
    else Success(Asking(d.(history := history)))
  }

  /** One iteration of this variant's `collect_user_info`. */
  function QueryStep(d: Dialogue, raw: string, llm: (string, string) -> Result<string>,
                     parse: string -> Option<map<string, Json>>): (r: Result<Progress>)
    ensures Settled(d) && r.Success? && r.value.Asking? ==> Settled(r.value.next)
    ensures Settled(d) && r.Success? && r.value.Collected? ==> ValidateUserProfile(r.value.info)
  {
    if d.additional then Success(ExtraStep(d, raw)) else ChatStep(d, raw, llm, parse)
  }

  /** Outside the additional phase every turn asks the LLM, and its failure
      is the turn's failure. In the additional phase the LLM plays no part. */
  lemma LlmOnEveryChatTurn(d: Dialogue, raw: string, llm1: (string, string) -> Result<string>,
                           llm2: (string, string) -> Result<string>, parse: string -> Option<map<string, Json>>)
    ensures !d.additional && llm1(raw, d.history).Failure? ==>
      QueryStep(d, raw, llm1, parse) == Failure(llm1(raw, d.history).error)
    ensures d.additional ==> QueryStep(d, raw, llm1, parse) == QueryStep(d, raw, llm2, parse)
  {
  }

  /** The confirmation flag goes up exactly on a turn whose reply carries
      JSON that leaves all seven fields set. */
  lemma AwaitingAfterCompleteMerge(d: Dialogue, raw: string, llm: (string, string) -> Result<string>,
                                   parse: string -> Option<map<string, Json>>)
    requires !d.additional && !d.awaiting && llm(raw, d.history).Success?
    ensures var data := ExtractJson(llm(raw, d.history).value, parse);
      var r := QueryStep(d, raw, llm, parse);
      && r.Success? && r.value.Asking?
      && (r.value.next.awaiting <==> |data| > 0 && ValidateUserProfile(Merge(d.info, data)))
  {
  }

  /** While awaiting, the answer counts only on a turn whose reply carries no
      JSON: yes enters the additional phase and anything else ends the
      dialogue. A reply with JSON is merged and the line is not read as an answer. */
  lemma ConfirmationAnswer(d: Dialogue, raw: string, llm: (string, string) -> Result<string>,
                           parse: string -> Option<map<string, Json>>)
    requires d.awaiting && !d.additional && llm(raw, d.history).Success?
    ensures var response := llm(raw, d.history).value;
      var data := ExtractJson(response, parse);
      var r := QueryStep(d, raw, llm, parse);
      var input := SchemeDisplay.Normalized(raw);
      && (|data| == 0 && input in YesWords ==>
            r == Success(Asking(d.(history := Exchanged(d.history, raw, response), additional := true))))
      && (|data| == 0 && input !in YesWords ==> r == Success(Collected(d.info)))
      && (|data| > 0 ==> r.Success? && r.value.Asking? && r.value.next.awaiting && !r.value.next.additional)
  {
  }

  /** The two variants part ways on a line that reads "not". In the
      additional phase this one appends it as a detail, where the first
      variant ends the dialogue. */
  lemma NotIsADetailHere(d: Dialogue, raw: string, llm: (string, string) -> Result<string>,
                         parse: string -> Option<map<string, Json>>)
    requires d.additional && SchemeDisplay.Normalized(raw) == "not"
    ensures QueryStep(d, raw, llm, parse).Success? && QueryStep(d, raw, llm, parse).value.Asking?
    ensures Step(d, raw, llm, parse) == Success(Collected(d.info))
  {
    assert "not" !in StopWords;
    assert "not" in NoWords;
    assert QueryStep(d, raw, llm, parse) == Success(ExtraStep(d, raw));
    assert Step(d, raw, llm, parse) == Success(AdditionalStep(d, "not"));
  }

  /** The loop over a sequence of console lines. It stops at the first break
      or exception, and `Asking` means the lines ran out first. */
  function QueryCollect(d: Dialogue, inputs: seq<string>, llm: (string, string) -> Result<string>,
                        parse: string -> Option<map<string, Json>>): (r: Result<Progress>)
    decreases |inputs|
    ensures Settled(d) && r.Success? && r.value.Collected? ==> ValidateUserProfile(r.value.info)
    ensures Settled(d) && r.Success? && r.value.Asking? ==> Settled(r.value.next)
  {
    if |inputs| == 0 then Success(Asking(d))
    else
      var p :- QueryStep(d, inputs[0], llm, parse);
      match p
      case Collected(info) => Success(Collected(info))
      case Asking(next) => QueryCollect(next, inputs[1..], llm, parse)
  }

  /** This variant, too, returns only complete profiles. */
  lemma QueryProfileIsValid(inputs: seq<string>, llm: (string, string) -> Result<string>,
                            parse: string -> Option<map<string, Json>>)
    ensures var r := QueryCollect(Start, inputs, llm, parse);
      r.Success? && r.value.Collected? ==> ValidateUserProfile(r.value.info)
  {
    assert !ValidateUserProfile(InitialInfo) by {
      assert "name" in RequiredFields && !Present(InitialInfo, "name");
    }
  }
}
