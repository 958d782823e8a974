/** The console workflow: collect a profile, search, and hand the schemes to
    the display agent, stopping at the first step that fails. */
module Cli {
  import opened Wrappers
  import opened Seqs
  import opened PyJson
  import opened SchemeSearch
  import opened SchemeDisplay
  import opened Checks
  import WebApp
  import Schemes

  /** The external steps the workflow reaches. */
  datatype Step = CollectProfile | Search | CreateAgent

  /** How the workflow ends. */
  datatype Ending =
    | ProfileFailed(error: PyError)
    | ProfileInvalid
    | SearchFailed(error: PyError)
    | NoValidSchemes
    | AgentFailed(error: PyError)
    | AgentStarted(agent: Agent)

  datatype Run = Run(steps: seq<Step>, ending: Ending)

  /** What `search_schemes` returns to the console workflow: the re-ranked
      records as dicts, or the exception it raised. */
  function SearchResult(file: Json, sv: Services): (r: Result<seq<Json>>)
    ensures r.Success? <==> SearchSchemes(file, sv).Success?
    ensures r.Success? ==> |r.value| == |SearchSchemes(file, sv).value.schemes| <= 20
  {
    var run :- SearchSchemes(file, sv);
    SearchSchemesCorrect(file, sv);
    Success(WebApp.AsDicts(run.schemes))
  }

  /** The profile the dialogue saved to `user_details.json` is one the
      search's loader accepts: every key it requires is among the seven
      fields a valid profile has set. */
  lemma ValidProfileLoads(p: map<string, Json>)
    requires ValidateUserProfile(p)
    ensures LoadUserDetails(JObj(p)).Success?
  {
    assert forall k :: k in RequiredProfileKeys ==> k in RequiredFields;
  }

  /** The workflow after a valid profile: `search` is what the search on
      that profile returned (or raised). */
  function AfterSearch(search: Result<seq<Json>>, md5: string -> nat): (r: Run)
    ensures Search in r.steps
    ensures search.Failure? ==> r == Run([CollectProfile, Search], SearchFailed(search.error))
    ensures r.ending.NoValidSchemes? <==>
      search.Success? && ValidateSchemes(search.value).Success? && ValidateSchemes(search.value).value == []
    ensures CreateAgent in r.steps <==>
      search.Success? && ValidateSchemes(search.value).Success? && ValidateSchemes(search.value).value != []
    ensures r.ending.AgentStarted? ==> r.ending.agent.phase == ListSchemes && |r.ending.agent.schemes| > 0
  {
    match search
    case Failure(e) => Run([CollectProfile, Search], SearchFailed(e))
    case Success(found) =>
      match ValidateSchemes(found)
      case Failure(e) => Run([CollectProfile, Search], SearchFailed(e))
      case Success(valid) =>
        if |valid| == 0 then Run([CollectProfile, Search], NoValidSchemes)
        else
          match NewAgent(valid, md5)
          case Failure(e) => Run([CollectProfile, Search, CreateAgent], AgentFailed(e))
          case Success(agent) =>
            NewAgentCorrect(valid, md5);
            Run([CollectProfile, Search, CreateAgent], AgentStarted(agent))
  }

  /** `run_conversational_chatbot`: `profile` is what the profile dialogue
      returned (or raised). A valid profile is saved as the JSON object the
      search then reads, and `sv` stands for the services that search
      reaches. The display agent's console loop is not modelled; the run
      ends when the agent is built. */
  function RunChatbot(profile: Result<map<string, Json>>, sv: Services): (r: Run)
    ensures profile.Failure? ==> r == Run([CollectProfile], ProfileFailed(profile.error))
    ensures profile.Success? && !ValidateUserProfile(profile.value) ==> r == Run([CollectProfile], ProfileInvalid)
    ensures profile.Success? && ValidateUserProfile(profile.value) ==>
      r == AfterSearch(SearchResult(JObj(profile.value), sv), sv.md5)
  {
    match profile
    case Failure(e) => Run([CollectProfile], ProfileFailed(e))
    case Success(p) =>
      if !ValidateUserProfile(p) then Run([CollectProfile], ProfileInvalid)
      else AfterSearch(SearchResult(JObj(p), sv), sv.md5)
  }

  /** The search runs exactly when the dialogue returned a profile with all
      seven fields, and then the profile file never fails to load: a search
      failure comes from later in the search. */
  lemma SearchOnlyForValidProfile(profile: Result<map<string, Json>>, sv: Services)
    ensures Search in RunChatbot(profile, sv).steps <==>
      profile.Success? && forall f :: f in RequiredFields ==> Present(profile.value, f)
    ensures profile.Success? && ValidateUserProfile(profile.value) ==>
      LoadUserDetails(JObj(profile.value)).Success?
  {
    if profile.Success? && ValidateUserProfile(profile.value) {
      ValidProfileLoads(profile.value);
    } else {
      assert Search !in [CollectProfile];
    }
  }

  /** The display agent is built exactly when at least one result of the
      search on the collected profile has a name. */
  lemma AgentOnlyForSchemes(p: map<string, Json>, sv: Services)
    requires ValidateUserProfile(p)
    ensures var r := RunChatbot(Success(p), sv);
      var search := SearchResult(JObj(p), sv);
      CreateAgent in r.steps <==>
        search.Success? && ValidateSchemes(search.value).Success? && ValidateSchemes(search.value).value != []
  {
  }

  /** Every record the search returns has a truthy name, so the workflow's
      validation keeps them all and raises on none. */
  lemma SearchResultsAllValid(file: Json, sv: Services)
    requires SearchResult(file, sv).Success?
    ensures ValidateSchemes(SearchResult(file, sv).value) == Success(SearchResult(file, sv).value)
  {
    SearchSchemesCorrect(file, sv);
    var rs := SearchSchemes(file, sv).value.schemes;
    assert SearchResult(file, sv).value == WebApp.AsDicts(rs);
    NamedDictsValid(rs);
  }

  /** Records with truthy names, rendered as dicts, all pass validation. */
  lemma NamedDictsValid(rs: seq<Schemes.Ranked>)
    requires forall x :: x in rs ==> Truthy(x.meta.schemeName)
    ensures ValidateSchemes(WebApp.AsDicts(rs)) == Success(WebApp.AsDicts(rs))
  {
    var js := WebApp.AsDicts(rs);
    forall i | 0 <= i < |js| ensures Named(js[i]) {
      assert rs[i] in rs;
      RankedJsonNamed(rs[i]);
    }
    FilterAll(Named, js);
  }

  /** A record with a truthy name renders as a dict whose metadata names it. */
  lemma RankedJsonNamed(x: Schemes.Ranked)
    requires Truthy(x.meta.schemeName)
    ensures Named(Schemes.RankedToJson(x))
  {
    var j := Schemes.RankedToJson(x);
    var m := Schemes.MetaToJson(x.meta);
    assert AsDict(j) == Success(j.fields);
    assert Get(j.fields, "metadata", JObj(map[])) == JObj(m);
    assert Get(m, "scheme_name", JNull) == x.meta.schemeName;
  }

  /** With a valid profile, the run stops for want of schemes exactly when
      the search returned none, and otherwise builds the agent from all of
      them. */
  lemma NoSchemesOnlyForEmptySearch(p: map<string, Json>, sv: Services)
    requires ValidateUserProfile(p)
    ensures var r := RunChatbot(Success(p), sv);
      var search := SearchResult(JObj(p), sv);
      && (r.ending.NoValidSchemes? <==> search == Success([]))
      && (CreateAgent in r.steps <==> search.Success? && search.value != [])
  {
    var search := SearchResult(JObj(p), sv);
    if search.Success? {
      SearchResultsAllValid(JObj(p), sv);
    }
  }

  /** Handed schemes that are already validated and non-empty, the
      constructor keeps them all and cannot raise its "no valid schemes" error. */
  lemma NewAgentOnValidated(valid: seq<Json>, md5: string -> nat)
    requires KeepNamed(valid) == Success(valid) && |valid| > 0
    ensures var r := NewAgent(valid, md5);
      && (r.Failure? ==> r.error != ValueError)
      && (r.Success? ==> |r.value.schemes| == |valid| && r.value.phase == ListSchemes)
  {
    NewAgentCorrect(valid, md5);
  }

  /** The constructor's "no valid schemes" error cannot happen here: the
      schemes it receives are already validated and non-empty, so it keeps
      them all. An agent started here lists every validated scheme. */
  lemma ConstructorSeesValidatedSchemes(p: map<string, Json>, sv: Services)
    requires ValidateUserProfile(p)
    ensures var e := RunChatbot(Success(p), sv).ending;
      var search := SearchResult(JObj(p), sv);
      && (e.AgentFailed? ==> e.error != ValueError)
      && (e.AgentStarted? ==>
            |e.agent.schemes| == |ValidateSchemes(search.value).value| > 0 && e.agent.phase == ListSchemes)
  {
    var search := SearchResult(JObj(p), sv);
    if search.Success? && ValidateSchemes(search.value).Success? {
      var valid := ValidateSchemes(search.value).value;
      if |valid| > 0 {
        ValidateSchemesIdempotent(search.value);
        NewAgentOnValidated(valid, sv.md5);
      }
    }
  }
}
