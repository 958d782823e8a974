/** The web front end: the profile form that starts a search and the chat
    endpoint that drives the display agent and decides which panel to show. */
module WebApp {
  import opened Wrappers
  import opened Text
  import opened Seqs
  import opened PyJson
  import opened Schemes
  import opened SchemeSearch
  import opened SchemeDisplay
  import opened Checks

  /** The global `agent_state` dictionary. */
  datatype AppState = AppState(schemes: seq<Json>, agent: Option<Agent>, selected: Option<Json>)

  const Initial: AppState := AppState([], None, None)

  /** The agent held by the server is one its constructor built. */
  predicate Consistent(st: AppState) {
    st.agent.Some? ==> ValidAgent(st.agent.value)
  }

  // ---------------------------------------------------------------------------
  // submit_profile
  // ---------------------------------------------------------------------------

  datatype PageError = NoError | MissingProfileFields | NoSchemesFound | Failed(error: PyError)

  /** The rendered page: the schemes listed and the error shown. */
  datatype Page = Page(schemes: seq<Json>, error: PageError)

  /** `profile['category'] = profile.get('caste', '')`. */
  function AlignCategory(form: map<string, string>): (p: map<string, string>)
    ensures p.Keys == form.Keys + {"category"}
    ensures p["category"] == Lookup(form, "caste", "")
    ensures forall k :: k in form && k != "category" ==> p[k] == form[k]
  {
    form["category" := Lookup(form, "caste", "")]
  }

  /** The form as the JSON object written to the profile file. */
  function FormJson(form: map<string, string>): (j: map<string, Json>)
    ensures j.Keys == form.Keys
    ensures forall k :: k in form ==> j[k] == JStr(form[k])
  {
    map k | k in form :: JStr(form[k])
  }

  /** The re-ranked schemes as the Python dicts `search_schemes` returns. */
  function AsDicts(rs: seq<Ranked>): (js: seq<Json>)
    ensures |js| == |rs|
    ensures forall i :: 0 <= i < |rs| ==> js[i] == RankedToJson(rs[i])
  {
    seq(|rs|, i requires 0 <= i < |rs| => RankedToJson(rs[i]))
  }

  /** `submit_profile`: align the category with the caste, validate, search,
      keep the named schemes and build a fresh display agent. `agent_state`
      changes only once there are schemes to show; the constructor fills ids
      in place, so the stored list is the agent's list. */
  function SubmitProfile(st: AppState, form: map<string, string>, sv: Services): (r: (AppState, Page))
    requires Consistent(st)
    ensures Consistent(r.0)
  {
    var profile := FormJson(AlignCategory(form));
    if !ValidateUserProfile(profile) then (st, Page([], MissingProfileFields))
    else
      match SearchSchemes(JObj(profile), sv)
      case Failure(e) => (st, Page([], Failed(e)))
      case Success(run) =>
        match ValidateSchemes(AsDicts(run.schemes))
        case Failure(e) => (st, Page([], Failed(e)))
        case Success(valid) =>
          if |valid| == 0 then (st, Page([], NoSchemesFound))
          else
            match NewAgent(valid, sv.md5)
            case Failure(e) => (st.(schemes := valid), Page([], Failed(e)))
            case Success(agent) => (st.(schemes := agent.schemes, agent := Some(agent)), Page(agent.schemes, NoError))
  }

  /** Because the category is overwritten with the caste, a form passes
      validation exactly when name, state, gender, caste, occupation and
      income are all non-empty; whatever category it sent is ignored. */
  lemma SubmitValidationIgnoresCategory(form: map<string, string>)
    ensures ValidateUserProfile(FormJson(AlignCategory(form))) <==>
      forall f :: f in FormFields ==> f in form && form[f] != ""
  {
    var p := FormJson(AlignCategory(form));
    forall f | f in FormFields ensures Present(p, f) <==> f in form && form[f] != "" {
      FormFieldPresent(form, f);
    }
    assert Present(p, "category") <==> Present(p, "caste");
    if ValidateUserProfile(p) {
      forall f | f in FormFields ensures Present(p, f) {
        assert f in RequiredFields;
      }
    } else {
      var f :| f in RequiredFields && !Present(p, f);
      assert f == "category" || f in FormFields;
    }
  }

  /** A form field other than the category reaches the profile as it was sent. */
  lemma FormFieldPresent(form: map<string, string>, f: string)
    requires f != "category"
    ensures Present(FormJson(AlignCategory(form)), f) <==> f in form && form[f] != ""
  {
  }

  /** The fields the form must fill in; the category is derived from the caste. */
  const FormFields: seq<string> := ["name", "state", "gender", "caste", "occupation", "income"]

  /** An invalid form leaves the server state untouched. */
  lemma SubmitInvalidKeepsState(st: AppState, form: map<string, string>, sv: Services)
    requires Consistent(st)
    requires !ValidateUserProfile(FormJson(AlignCategory(form)))
    ensures SubmitProfile(st, form, sv) == (st, Page([], MissingProfileFields))
  {
  }

  /** A page with no error comes with a fresh agent in its list phase, whose
      schemes are exactly the schemes stored and shown: one per named search
      result, in rank order, each with an identifier. */
  lemma SubmitProfileCorrect(st: AppState, form: map<string, string>, sv: Services)
    requires Consistent(st)
    requires SubmitProfile(st, form, sv).1.error == NoError
    ensures var (st2, page) := SubmitProfile(st, form, sv);
      var run := SearchSchemes(JObj(FormJson(AlignCategory(form))), sv).value;
      && st2.agent.Some?
      && st2.agent.value.phase == ListSchemes
      && st2.schemes == st2.agent.value.schemes == page.schemes
      && 0 < |page.schemes| == |Filter(Named, AsDicts(run.schemes))| <= |run.schemes|
      && (forall i :: 0 <= i < |page.schemes| ==> Displayable(page.schemes[i]))
      && st2.selected == st.selected
  {
    var profile := FormJson(AlignCategory(form));
    assert ValidateUserProfile(profile) && SearchSchemes(JObj(profile), sv).Success?;
    var run := SearchSchemes(JObj(profile), sv).value;
    assert ValidateSchemes(AsDicts(run.schemes)).Success?;
    var valid := ValidateSchemes(AsDicts(run.schemes)).value;
    assert |valid| > 0 && NewAgent(valid, sv.md5).Success?;
    var agent := NewAgent(valid, sv.md5).value;
    assert SubmitProfile(st, form, sv) == (st.(schemes := agent.schemes, agent := Some(agent)), Page(agent.schemes, NoError));
    ValidateSchemesIdempotent(AsDicts(run.schemes));
    NewAgentCorrect(valid, sv.md5);
  }

  // ---------------------------------------------------------------------------
  // chat
  // ---------------------------------------------------------------------------

  datatype Action = NoAction | ShowSchemes | ShowDetails | ExitChat

  /** The `details` member of the JSON reply: absent, `null`, or a row. */
  datatype DetailsField = Omitted | Null | Included(row: Row)

  /** The JSON reply, or the error answered with status 500. */
  datatype ChatReply =
    | Reply(response: string, action: Action, details: DetailsField)
    | ServerError(error: PyError)

  const AskMessage: string := "Please provide a message."
  const AskProfile: string := "Please submit your profile first."
  const AskNumber: string := "Please specify a valid scheme number (e.g., 'show scheme 3')."

  /** `request.json['message'].strip()`. */
  function MessageOf(body: Json): (r: Result<string>)
    ensures body.JObj? && "message" in body.fields && body.fields["message"].JStr? ==>
      r == Success(Strip(body.fields["message"].s))
  {
    match body
    case JObj(fields) =>
      if "message" !in fields then Failure(KeyError)
      else if fields["message"].JStr? then Success(Strip(fields["message"].s))
      else Failure(AttributeError)
    case _ => Failure(TypeError)
  }

  /** `schemes[k]['metadata']['scheme_id']`. */
  function SchemeIdAt(s: Json): (r: Result<Json>) {
    match s
    case JObj(f) =>
      if "metadata" !in f then Failure(KeyError)
      else (match f["metadata"]
            case JObj(m) => if "scheme_id" in m then Success(m["scheme_id"]) else Failure(KeyError)
            case _ => Failure(TypeError))
    case _ => Failure(TypeError)
  }

  /** `int(user_input.split()[-1])`, or `None` where that raises. */
  function SchemeNumber(input: string): (r: Option<int>) {
    match LastWord(input)
    case None => None
    case Some(word) => ParseInt(word)
  }

  /** The reply for listed scheme `n`, whose record is `s`: its details when
      the database has them, an apology otherwise; a record without an
      identifier raises. */
  function DetailsFor(s: Json, n: int, response: string, db: Db): (r: ChatReply)
    ensures r.Reply? ==> r.action in {NoAction, ShowDetails}
  {
    match SchemeIdAt(s)
    case Failure(e) => ServerError(e)
    case Success(sid) =>
      match FetchDetails(db, sid)
      case Some(row) => Reply(response, ShowDetails, Included(row))
      case None => Reply("Sorry, no details found for scheme number " + IntToDecimal(n) + ".", NoAction, Null)
  }

  /** The "show scheme N" branch: the details of listed scheme N when the
      database has them; a word that is not a number asks for one. */
  function ShowSchemeRoute(st: AppState, input: string, response: string, db: Db): (r: ChatReply)
    ensures r.Reply? ==> r.action in {NoAction, ShowDetails}
  {
    match SchemeNumber(input)
    case None => Reply(AskNumber, NoAction, Null)
    case Some(n) =>
      if 1 <= n <= |st.schemes| then DetailsFor(st.schemes[n - 1], n, response, db)
      else Reply(response, NoAction, Null)
  }

  /** The action chosen for message `input` once the agent has answered
      `response`: an exact "show schemes" is tested before the "show scheme"
      prefix; "quit" and "exit" clear the server state. */
  function Route(st: AppState, input: string, response: string, db: Db): (r: (AppState, ChatReply))
    ensures r.0 == st || r.0 == Initial
    ensures r.1.Reply? && r.1.action == ExitChat ==> r.0 == Initial
  {
    var low := Lower(input);
    if low == "show schemes" then (st, Reply(response, ShowSchemes, Null))
    else if StartsWith(low, "show scheme") then (st, ShowSchemeRoute(st, input, response, db))
    else if low == "quit" || low == "exit" then (Initial, Reply(response, ExitChat, Null))
    else (st, Reply(response, NoAction, Null))
  }

  /** `chat()`: the agent answers first, then the route is chosen. An
      exception from the agent is answered with status 500, but what the agent
      did before raising is kept. */
  function Chat(st: AppState, body: Json, db: Db, llm: Result<string>): (r: (AppState, ChatReply))
    requires Consistent(st)
    ensures Consistent(r.0)
    ensures r.1.Reply? && r.1.action == ExitChat ==> r.0 == Initial
  {
    match MessageOf(body)
    case Failure(e) => (st, ServerError(e))
    case Success(input) =>
      if input == "" then (st, Reply(AskMessage, NoAction, Omitted))
      else if st.agent.None? then (st, Reply(AskProfile, NoAction, Omitted))
      else
        var (agent, out) := HandleInput(st.agent.value, input, db, llm);
        var st1 := st.(agent := Some(agent));
        match out
        case Raised(e) => (st1, ServerError(e))
        case Said(response) => Route(st1, input, response, db)
  }

  /** The JSON body `{"message": text}`. */
  function MessageBody(text: string): (r: Json) {
    JObj(map["message" := JStr(text)])
  }

  /** An empty message, or any message before a profile was submitted, is
      answered without touching the state or calling the agent. */
  lemma ChatWithoutAgent(st: AppState, text: string, db: Db, llm: Result<string>)
    requires Consistent(st)
    requires Strip(text) == "" || st.agent.None?
    ensures var r := Chat(st, MessageBody(text), db, llm);
      && r.0 == st
      && r.1.Reply? && r.1.action == NoAction && r.1.details == Omitted
      && r.1.response == (if Strip(text) == "" then AskMessage else AskProfile)
  {
  }

  /** "quit" ends the chat whatever the agent's phase: the action is `exit`
      and the server state is reset. */
  lemma ChatQuitResets(st: AppState, text: string, db: Db, llm: Result<string>)
    requires Consistent(st) && st.agent.Some?
    requires Lower(Strip(text)) == "quit"
    ensures var r := Chat(st, MessageBody(text), db, llm);
      r.0 == Initial && r.1.Reply? && r.1.action == ExitChat && r.1.response == Farewell
  {
    var input := Strip(text);
    var a := st.agent.value;
    TrimIdempotent(text, IsSpace);
    assert Normalized(input) == "quit";
    assert input != "" by {
      assert |Lower(input)| == 4;
    }
    assert HandleInput(a, input, db, llm).1 == Said(Farewell) by {
      if a.phase != Exit {
        QuitExits(a, input, db, llm);
      }
    }
    RouteExit(st.(agent := Some(HandleInput(a, input, db, llm).0)), input, Farewell, db);
  }

  /** "quit" and "exit", in any letter case, reach the exit branch. */
  lemma RouteExit(st: AppState, input: string, response: string, db: Db)
    requires Lower(input) == "quit" || Lower(input) == "exit"
    ensures Route(st, input, response, db) == (Initial, Reply(response, ExitChat, Null))
  {
    var low := Lower(input);
    assert |low| == 4;
    assert low != "show schemes";
    assert !StartsWith(low, "show scheme");
  }

  /** The number at the end of the message names a listed scheme that the
      database has details for. */
  predicate NamesStoredScheme(st: AppState, input: string, db: Db) {
    && SchemeNumber(input).Some?
    && var n := SchemeNumber(input).value;
    && 1 <= n <= |st.schemes|
    && SchemeIdAt(st.schemes[n - 1]).Success?
    && FetchDetails(db, SchemeIdAt(st.schemes[n - 1]).value).Some?
  }

  /** Details are shown exactly for a record with an identifier that the
      database knows. */
  lemma DetailsForShows(s: Json, n: int, response: string, db: Db)
    ensures var r := DetailsFor(s, n, response, db);
      (r.Reply? && r.action == ShowDetails) <==> SchemeIdAt(s).Success? && FetchDetails(db, SchemeIdAt(s).value).Some?
  {
  }

  /** The "show scheme N" branch shows details exactly for a stored scheme. */
  lemma ShowSchemeRouteDetails(st: AppState, input: string, response: string, db: Db)
    ensures var r := ShowSchemeRoute(st, input, response, db);
      (r.Reply? && r.action == ShowDetails) <==> NamesStoredScheme(st, input, db)
  {
    if SchemeNumber(input).Some? {
      var n := SchemeNumber(input).value;
      if 1 <= n <= |st.schemes| {
        DetailsForShows(st.schemes[n - 1], n, response, db);
      }
    }
  }

  /** The details panel opens exactly when the message starts with "show
      scheme" (and is not "show schemes"), ends in a number N of a listed
      scheme, and the database has that scheme's details. */
  lemma RouteShowDetailsIff(st: AppState, input: string, response: string, db: Db)
    ensures var r := Route(st, input, response, db).1;
      (r.Reply? && r.action == ShowDetails) <==>
        && Lower(input) != "show schemes"
        && StartsWith(Lower(input), "show scheme")
        && NamesStoredScheme(st, input, db)
  {
    var low := Lower(input);
    var r := Route(st, input, response, db).1;
    if low == "show schemes" {
      assert r == Reply(response, ShowSchemes, Null);
    } else if StartsWith(low, "show scheme") {
      assert r == ShowSchemeRoute(st, input, response, db);
      ShowSchemeRouteDetails(st, input, response, db);
    } else {
      assert r.Reply? && r.action != ShowDetails;
    }
  }

  /** "show schemes" is matched before the "show scheme" prefix, so it never
      asks for a number. */
  lemma RouteShowSchemes(st: AppState, input: string, response: string, db: Db)
    requires Lower(input) == "show schemes"
    ensures Route(st, input, response, db) == (st, Reply(response, ShowSchemes, Null))
  {
  }

  /** Only an exact "quit" or "exit" (in any letter case) resets the state. */
  lemma RouteResetsOnlyOnExit(st: AppState, input: string, response: string, db: Db)
    requires st != Initial
    ensures Route(st, input, response, db).0 == Initial <==> Lower(input) == "quit" || Lower(input) == "exit"
  {
    var low := Lower(input);
    if low == "quit" || low == "exit" {
      RouteExit(st, input, response, db);
    }
  }
}
