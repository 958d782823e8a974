/** The scheme display agent: loading the saved recommendations, looking up
    a scheme's full details, and the three-state conversation over the list. */
module SchemeDisplay {
  import opened Wrappers
  import opened Text
  import opened Seqs
  import opened PyJson
  import opened Schemes
  import opened SchemeSearch

  // ---------------------------------------------------------------------------
  // load_recommended_schemes
  // ---------------------------------------------------------------------------

  /** The seven-field metadata of a flat saved record, each field defaulting to "". */
  function FlatMeta(d: map<string, Json>): (m: map<string, Json>)
    ensures m.Keys == {"scheme_id", "scheme_name", "brief_description", "eligibility_criteria", "state", "tags", "category"}
    ensures forall k :: k in m ==> m[k] == (if k in d then d[k] else JStr(""))
  {
    map[
      "scheme_id" := Get(d, "scheme_id", JStr("")),
      "scheme_name" := Get(d, "scheme_name", JStr("")),
      "brief_description" := Get(d, "brief_description", JStr("")),
      "eligibility_criteria" := Get(d, "eligibility_criteria", JStr("")),
      "state" := Get(d, "state", JStr("")),
      "tags" := Get(d, "tags", JStr("")),
      "category" := Get(d, "category", JStr(""))]
  }

  /** One loaded entry: a value holding "metadata" passes through unchanged,
      a flat dict is rebuilt as `{id, score, llm_score, metadata}`, and any
      other value raises. */
  function LoadRecord(scheme: Json): (r: Result<Json>) {
    var nested :- In("metadata", scheme);
    if nested then Success(scheme)
    else
      var d :- AsDict(scheme);
      Success(JObj(FlatRecord(d)))
  }

  /** A flat dict rebuilt as `{id, score, llm_score, metadata}`. */
  function FlatRecord(d: map<string, Json>): (j: map<string, Json>)
    ensures j.Keys == {"id", "score", "llm_score", "metadata"}
    ensures j["id"] == (if "id" in d then d["id"] else if "scheme_id" in d then d["scheme_id"] else JStr(""))
    ensures j["score"] == (if "pinecone_score" in d then d["pinecone_score"] else JFloat(0.0))
    ensures j["llm_score"] == (if "llm_score" in d then d["llm_score"] else JInt(0))
    ensures j["metadata"] == JObj(FlatMeta(d))
  {
    map[
      "id" := Get(d, "id", Get(d, "scheme_id", JStr(""))),
      "score" := Get(d, "pinecone_score", JFloat(0.0)),
      "llm_score" := Get(d, "llm_score", JInt(0)),
      "metadata" := JObj(FlatMeta(d))]
  }

  function LoadRecords(items: seq<Json>): (r: Result<seq<Json>>)
    ensures r.Success? ==> |r.value| == |items|
    ensures r.Success? ==> forall i :: 0 <= i < |items| ==> LoadRecord(items[i]) == Success(r.value[i])
    ensures r.Failure? <==> exists i :: 0 <= i < |items| && LoadRecord(items[i]).Failure?
  {
    if |items| == 0 then Success([])
    else
      var first :- LoadRecord(items[0]);
      var rest :- LoadRecords(items[1..]);
      assert forall i :: 1 <= i < |items| ==> items[i] == items[1..][i - 1];
      Success([first] + rest)
  }

  /** `load_recommended_schemes` on the decoded file: a value that is not a
      list is rejected. */
  function LoadRecommended(file: Json): (r: Result<seq<Json>>)
    ensures !file.JArr? ==> r == Failure(ValueError)
    ensures file.JArr? ==> r == LoadRecords(file.items)
  {
    if file.JArr? then LoadRecords(file.items) else Failure(ValueError)
  }

  /** A dict that already has "metadata" is kept exactly; a flat dict gets
      the id (falling back to scheme_id), the saved similarity as `score`
      (0.0 when absent), the LLM score (0 when absent) and seven metadata
      fields defaulting to "". */
  lemma LoadRecordCases(d: map<string, Json>)
    ensures "metadata" in d ==> LoadRecord(JObj(d)) == Success(JObj(d))
    ensures "metadata" !in d ==>
      && LoadRecord(JObj(d)).Success?
      && var j := LoadRecord(JObj(d)).value.fields;
      && j.Keys == {"id", "score", "llm_score", "metadata"}
      && j["id"] == (if "id" in d then d["id"] else if "scheme_id" in d then d["scheme_id"] else JStr(""))
      && j["score"] == (if "pinecone_score" in d then d["pinecone_score"] else JFloat(0.0))
      && j["llm_score"] == (if "llm_score" in d then d["llm_score"] else JInt(0))
      && forall k :: k in j["metadata"].fields ==> j["metadata"].fields[k] == (if k in d then d[k] else JStr(""))
  {
    if "metadata" !in d {
      assert LoadRecord(JObj(d)) == Success(JObj(FlatRecord(d)));
    }
  }

  /** The loaded form of a saved record: the search agent's record, except
      that its id is the scheme id (the saved file has no vector id). */
  function Reloaded(r: Ranked): (res: Json) {
    JObj(map[
      "id" := JStr(r.meta.schemeId),
      "score" := JFloat(r.pineconeScore),
      "llm_score" := JInt(r.llmScore),
      "metadata" := JObj(MetaToJson(r.meta))])
  }

  /** Loading one saved record gives back the re-ranked record. */
  lemma SaveLoadRecord(r: Ranked)
    ensures LoadRecord(JObj(SavedRecord(r))) == Success(Reloaded(r))
  {
    var d := SavedRecord(r);
    assert "metadata" !in d && "id" !in d;
    assert LoadRecord(JObj(d)) == Success(JObj(FlatRecord(d)));
    SavedMeta(r);
    assert FlatRecord(d) == Reloaded(r).fields;
  }

  /** The seven metadata fields survive the flat saved form. */
  lemma SavedMeta(r: Ranked)
    ensures FlatMeta(SavedRecord(r)) == MetaToJson(r.meta)
  {
    var d := SavedRecord(r);
    var m := FlatMeta(d);
    forall k | k in m ensures m[k] == MetaToJson(r.meta)[k] {
    }
  }

  /** Loading what the search agent saved recovers every re-ranked record:
      the seven metadata fields, the LLM score, and the similarity as `score`. */
  lemma SaveLoadRoundTrip(rs: seq<Ranked>)
    ensures LoadRecommended(SavedJson(rs)).Success?
    ensures |LoadRecommended(SavedJson(rs)).value| == |rs|
    ensures forall i :: 0 <= i < |rs| ==> LoadRecommended(SavedJson(rs)).value[i] == Reloaded(rs[i])
  {
    var items := SavedJson(rs).items;
    forall i | 0 <= i < |rs| ensures LoadRecord(items[i]) == Success(Reloaded(rs[i])) {
      SaveLoadRecord(rs[i]);
    }
  }

  // ---------------------------------------------------------------------------
  // fetch_scheme_details
  // ---------------------------------------------------------------------------

  /** The five columns selected from the `schemes` table. */
  datatype Row = Row(
    schemeName: Json,
    detailedDescription: Json,
    eligibilityCriteria: Json,
    applicationProcess: Json,
    documentsRequired: Json)

  /** The details database: rows by scheme id, or a database that raises. */
  datatype Db = Db(rows: map<Json, Row>) | DbError

  const NotAvailable: Json := JStr("Not available")

  /** `column or "Not available"`. */
  function OrNotAvailable(v: Json): (r: Json)
    ensures Truthy(r)
    ensures Truthy(v) ==> r == v
    ensures !Truthy(v) ==> r == NotAvailable
  {
    if Truthy(v) then v else NotAvailable
  }

  /** `fetch_scheme_details`: the row for the id with every empty column
      replaced, or `None` when there is no row or the database fails. */
  function FetchDetails(db: Db, id: Json): (r: Option<Row>)
    ensures r.None? <==> db.DbError? || id !in db.rows
  {
    match db
    case DbError => None
    case Db(rows) =>
      if id in rows then
        var row := rows[id];
        Some(Row(
          OrNotAvailable(row.schemeName),
          OrNotAvailable(row.detailedDescription),
          OrNotAvailable(row.eligibilityCriteria),
          OrNotAvailable(row.applicationProcess),
          OrNotAvailable(row.documentsRequired)))
      else None
  }

  /** Every column of the details is truthy, and each equals the stored
      column exactly when that column is itself truthy. */
  lemma FetchDetailsColumns(rows: map<Json, Row>, id: Json)
    requires id in rows
    ensures var d := FetchDetails(Db(rows), id);
      var row := rows[id];
      && d.Some?
      && (Truthy(row.schemeName) ==> d.value.schemeName == row.schemeName)
      && (!Truthy(row.schemeName) ==> d.value.schemeName == NotAvailable)
      && (Truthy(row.detailedDescription) ==> d.value.detailedDescription == row.detailedDescription)
      && (!Truthy(row.detailedDescription) ==> d.value.detailedDescription == NotAvailable)
      && (Truthy(row.eligibilityCriteria) ==> d.value.eligibilityCriteria == row.eligibilityCriteria)
      && (!Truthy(row.eligibilityCriteria) ==> d.value.eligibilityCriteria == NotAvailable)
      && (Truthy(row.applicationProcess) ==> d.value.applicationProcess == row.applicationProcess)
      && (!Truthy(row.applicationProcess) ==> d.value.applicationProcess == NotAvailable)
      && (Truthy(row.documentsRequired) ==> d.value.documentsRequired == row.documentsRequired)
      && (!Truthy(row.documentsRequired) ==> d.value.documentsRequired == NotAvailable)
  {
  }

  // ---------------------------------------------------------------------------
  // SchemeDisplayAgent.__init__
  // ---------------------------------------------------------------------------

  /** `scheme.get('metadata', {}).get('scheme_name')` is truthy; a value
      without `.get` raises. */
  function NamedIn(s: Json): (r: Result<bool>) {
    var d :- AsDict(s);
    var m :- AsDict(Get(d, "metadata", JObj(map[])));
    Success(Truthy(Get(m, "scheme_name", JNull)))
  }

  predicate Named(s: Json) {
    NamedIn(s) == Success(true)
  }

  /** The constructor's filter: named schemes in order; the first value
      without `.get` aborts. */
  function KeepNamed(ss: seq<Json>): (r: Result<seq<Json>>)
    ensures r.Success? ==> r.value == Filter(Named, ss)
    ensures r.Failure? <==> exists i :: 0 <= i < |ss| && NamedIn(ss[i]).Failure?
  {
    if |ss| == 0 then Success([])
    else
      var keep :- NamedIn(ss[0]);
      var rest :- KeepNamed(ss[1..]);
      assert forall i :: 1 <= i < |ss| ==> ss[i] == ss[1..][i - 1];
      Success((if keep then [ss[0]] else []) + rest)
  }

  function MetaOf(s: Json): (r: map<string, Json>)
    requires Named(s)
  {
    s.fields["metadata"].fields
  }

  /** A scheme as the agent holds it: metadata with a truthy name and id. */
  predicate Displayable(s: Json) {
    Named(s) && Truthy(Get(MetaOf(s), "scheme_id", JNull))
  }

  /** Fill an empty scheme id with the synthesised placeholder, in place. */
  function FillId(s: Json, md5: string -> nat): (r: Result<Json>)
    requires Named(s)
    ensures r.Success? ==> Displayable(r.value)
    ensures Truthy(Get(MetaOf(s), "scheme_id", JNull)) ==> r == Success(s)
    ensures r.Failure? ==> r.error == AttributeError || r.error == TypeError
  {
    var meta := MetaOf(s);
    if Truthy(Get(meta, "scheme_id", JNull)) then Success(s)
    else
      var sid :- SynthesizeId(Get(meta, "scheme_name", JStr("unknown")), Get(meta, "state", JStr("unknown")), md5);
      Success(JObj(s.fields["metadata" := JObj(meta["scheme_id" := JStr(sid)])]))
  }

  function FillIds(ss: seq<Json>, md5: string -> nat): (r: Result<seq<Json>>)
    requires forall i :: 0 <= i < |ss| ==> Named(ss[i])
    ensures r.Success? ==> |r.value| == |ss|
    ensures r.Success? ==> forall i :: 0 <= i < |ss| ==> FillId(ss[i], md5) == Success(r.value[i])
    ensures r.Failure? ==> r.error == AttributeError || r.error == TypeError
  {
    if |ss| == 0 then Success([])
    else
      var first :- FillId(ss[0], md5);
      var rest :- FillIds(ss[1..], md5);
      assert forall i :: 1 <= i < |ss| ==> ss[i] == ss[1..][i - 1];
      Success([first] + rest)
  }

  // ---------------------------------------------------------------------------
  // The agent and its invariant
  // ---------------------------------------------------------------------------

  datatype Phase = ListSchemes | SelectDetail | Exit

  datatype Message = UserMessage(text: string) | AiMessage(text: string)

  datatype Agent = Agent(
    schemes: seq<Json>,
    selected: Option<Json>,
    details: Option<Row>,
    phase: Phase,
    memory: seq<Message>)

  /** What the constructor establishes and every turn preserves: a non-empty
      list of displayable schemes; nothing selected while listing; a selected
      scheme from the list, with its details, while showing one. */
  predicate ValidAgent(a: Agent) {
    && |a.schemes| > 0
    && (forall i :: 0 <= i < |a.schemes| ==> Displayable(a.schemes[i]))
    && (a.phase == ListSchemes ==> a.selected.None? && a.details.None?)
    && (a.phase == SelectDetail ==> a.selected.Some? && a.selected.value in a.schemes && a.details.Some?)
  }

  /** `SchemeDisplayAgent(schemes)`: keep the named schemes, fill their empty
      ids, and refuse an empty result. */
  function NewAgent(schemes: seq<Json>, md5: string -> nat): (r: Result<Agent>)
    ensures r.Success? ==> ValidAgent(r.value)
    ensures r.Success? ==> r.value.phase == ListSchemes && r.value.memory == []
  {
    var named :- KeepNamed(schemes);
    var filled :- FillIds(named, md5);
    if |filled| == 0 then Failure(ValueError)
    else Success(Agent(filled, None, None, ListSchemes, []))
  }

  /** The constructor keeps exactly the named schemes, in order, each with
      only its id filled in, and raises when none is named. */
  lemma NewAgentCorrect(schemes: seq<Json>, md5: string -> nat)
    requires KeepNamed(schemes).Success?
    ensures var named := Filter(Named, schemes);
      var r := NewAgent(schemes, md5);
      && (named == [] ==> r == Failure(ValueError))
      && (r.Success? ==>
            && |r.value.schemes| == |named|
            && forall i :: 0 <= i < |named| ==> FillId(named[i], md5) == Success(r.value.schemes[i]))
  {
  }

  /** A scheme whose id is empty gets exactly the placeholder the search
      agent would synthesise from the same name and state. */
  lemma FillIdSynthesizes(s: Json, md5: string -> nat)
    requires Named(s) && !Truthy(Get(MetaOf(s), "scheme_id", JNull))
    requires Get(MetaOf(s), "state", JStr("unknown")).JStr?
    ensures var meta := MetaOf(s);
      var sid := SynthesizeId(Get(meta, "scheme_name", JStr("unknown")), Get(meta, "state", JStr("unknown")), md5);
      && sid.Success?
      && FillId(s, md5) == Success(JObj(s.fields["metadata" := JObj(meta["scheme_id" := JStr(sid.value)])]))
  {
  }

  // ---------------------------------------------------------------------------
  // display_schemes
  // ---------------------------------------------------------------------------

  const ListHeader: string := "Here are the recommended schemes I found for you:\n"
  const ListFooter: string := "Which scheme would you like to learn more about? Please enter its number, or you can say 'quit' to exit."
  const NoSchemes: string := "I don't have any recommended schemes to show you right now. Would you like to quit?"

  /** `metadata[key]` of an entry; a missing key raises KeyError. */
  function MetaField(s: Json, key: string): (r: Result<Json>)
    requires Named(s)
  {
    if key in MetaOf(s) then Success(MetaOf(s)[key]) else Failure(KeyError)
  }

  /** The three lines of entry number `n`. */
  function EntryText(n: nat, s: Json): (r: Result<string>)
    requires Named(s)
  {
    var name :- MetaField(s, "scheme_name");
    var brief :- MetaField(s, "brief_description");
    var state :- MetaField(s, "state");
    Success(NatToDecimal(n) + ". " + Str(name) + "\n"
      + "   Brief Description: " + Str(brief) + "\n"
      + "   State: " + Str(state) + "\n\n")
  }

  /** The entries numbered from `n` on; the first missing field aborts. */
  function EntryTexts(n: nat, ss: seq<Json>): (r: Result<seq<string>>)
    requires forall i :: 0 <= i < |ss| ==> Named(ss[i])
    ensures r.Success? ==> |r.value| == |ss|
    ensures r.Success? ==> forall i :: 0 <= i < |ss| ==> EntryText(n + i, ss[i]) == Success(r.value[i])
    ensures r.Failure? <==> exists i :: 0 <= i < |ss| && EntryText(n + i, ss[i]).Failure?
    decreases |ss|
  {
    if |ss| == 0 then Success([])
    else
      var first :- EntryText(n, ss[0]);
      var rest :- EntryTexts(n + 1, ss[1..]);
      assert forall i :: 1 <= i < |ss| ==> ss[i] == ss[1..][i - 1] && n + i == (n + 1) + (i - 1);
      Success([first] + rest)
  }

  /** `display_schemes()`: the entries are appended one after another. */
  function RenderList(ss: seq<Json>): (r: Result<string>)
    requires forall i :: 0 <= i < |ss| ==> Named(ss[i])
  {
    if |ss| == 0 then Success(NoSchemes)
    else
      var entries :- EntryTexts(1, ss);
      Success(ListHeader + Join("", entries) + ListFooter)
  }

  /** Rendering succeeds exactly when every entry has its name, description
      and state, and then lists every scheme under its number, 1 to N. */
  lemma RenderListCorrect(ss: seq<Json>)
    requires forall i :: 0 <= i < |ss| ==> Named(ss[i])
    requires |ss| > 0
    ensures RenderList(ss).Success? <==> forall i :: 0 <= i < |ss| ==> EntryText(i + 1, ss[i]).Success?
    ensures RenderList(ss).Success? ==>
      forall i :: 0 <= i < |ss| ==> Contains(RenderList(ss).value, EntryText(i + 1, ss[i]).value)
  {
    var r := EntryTexts(1, ss);
    if r.Success? {
      forall i | 0 <= i < |ss| ensures Contains(RenderList(ss).value, EntryText(i + 1, ss[i]).value) {
        JoinContainsItems("", r.value, i);
        ContainsInContext(ListHeader, Join("", r.value), ListFooter, r.value[i]);
      }
    }
  }

  // ---------------------------------------------------------------------------
  // handle_input
  // ---------------------------------------------------------------------------

  const Farewell: string := "Goodbye! If you need help later, feel free to come back."
  const NotUnderstood: string := "I didn't understand that. Please enter the number of the scheme you'd like to learn more about, or say 'quit' to exit.\n\n"
  const BackToList: string := "Sure, let's go back to the scheme list.\n\n"
  const NotSure: string := "I'm not sure what you'd like to do. Would you like to go back to the scheme list to explore another scheme, or would you like to quit?"
  const BackWords: seq<string> := ["back", "go back", "return"]
  const EligibilityKeywords: seq<string> := ["eligible", "eligibility", "caste", "oc", "sc", "st", "obc"]

  /** What a turn gives the caller: a reply, or an exception that escapes. */
  datatype Outcome = Said(text: string) | Raised(error: PyError)

  /** A fixed text followed by the rendered list (or the rendering's exception). */
  function ThenList(prefix: string, ss: seq<Json>): (r: Outcome)
    requires forall i :: 0 <= i < |ss| ==> Named(ss[i])
  {
    match RenderList(ss)
    case Success(t) => Said(prefix + t)
    case Failure(e) => Raised(e)
  }

  /** The input asks about eligibility: some keyword occurs in it. */
  predicate AsksEligibility(input: string) {
    exists k :: k in EligibilityKeywords && Contains(input, k)
  }

  /** The normalised input `user_input.strip().lower()`. */
  function Normalized(raw: string): (r: string) {
    Lower(Strip(raw))
  }

  /** Record the user's input and the reply in the conversation memory. */
  function Remember(a: Agent, input: string, reply: string): (b: Agent)
    ensures b.memory == a.memory + [UserMessage(input), AiMessage(reply)]
    ensures b.(memory := a.memory) == a
  {
    a.(memory := a.memory + [UserMessage(input), AiMessage(reply)])
  }

  /** A turn in `list_schemes` whose input is entry number `n`. */
  function ChooseTurn(a: Agent, input: string, n: int, db: Db, llm: Result<string>): (r: (Agent, Outcome))
    requires ValidAgent(a) && a.phase == ListSchemes && 1 <= n <= |a.schemes|
    ensures ValidAgent(r.0) && r.0.schemes == a.schemes
  {
    var chosen := a.schemes[n - 1];
    var sid := MetaOf(chosen)["scheme_id"];
    match FetchDetails(db, sid)
    case None =>
      (a.(selected := None, details := None),
       ThenList("Sorry, I couldn't find more details for scheme ID '" + Str(sid) + "' in the database.\n\nLet's try another one. ", a.schemes))
    case Some(row) => ShowChosen(a, input, chosen, row, llm)
  }

  /** The chosen scheme's details exist: it becomes the selection and the
      model is asked to present it. */
  function ShowChosen(a: Agent, input: string, chosen: Json, row: Row, llm: Result<string>): (r: (Agent, Outcome))
    requires ValidAgent(a) && a.phase == ListSchemes && chosen in a.schemes
    ensures ValidAgent(r.0) && r.0.schemes == a.schemes
    ensures r.0.phase == SelectDetail && r.0.selected == Some(chosen) && r.0.details == Some(row)
  {
    var shown := a.(selected := Some(chosen), details := Some(row), phase := SelectDetail);
    match llm
    case Success(text) => (Remember(shown, input, Strip(text)), Said(Strip(text)))
    case Failure(e) =>
      // the selection is inside the `try` whose `except ValueError` answers with the list
      if e == ValueError then (shown, ThenList(NotUnderstood, a.schemes)) else (shown, Raised(e))
  }

  /** A turn in `list_schemes`. */
  function ListTurn(a: Agent, input: string, db: Db, llm: Result<string>): (r: (Agent, Outcome))
    requires ValidAgent(a) && a.phase == ListSchemes
    ensures ValidAgent(r.0) && r.0.schemes == a.schemes
  {
    if input == "quit" then (a.(phase := Exit), Said(Farewell))
    else
      match ParseInt(input)
      case None => (a, ThenList(NotUnderstood, a.schemes))
      case Some(n) =>
        if 1 <= n <= |a.schemes| then ChooseTurn(a, input, n, db, llm)
        else (a, ThenList("Hmm, please enter a number between 1 and " + NatToDecimal(|a.schemes|) + ".\n\n", a.schemes))
  }

  /** A turn in `select_detail`. */
  function DetailTurn(a: Agent, input: string, llm: Result<string>): (r: (Agent, Outcome))
    requires ValidAgent(a) && a.phase == SelectDetail
    ensures ValidAgent(r.0) && r.0.schemes == a.schemes
  {
    if input == "quit" then (a.(phase := Exit), Said(Farewell))
    else if input in BackWords then
      (a.(selected := None, details := None, phase := ListSchemes), ThenList(BackToList, a.schemes))
    else if AsksEligibility(input) || input == "tell me" then
      match llm
      case Success(text) => (Remember(a, input, Strip(text)), Said(Strip(text)))
      case Failure(e) => (a, Raised(e))
    else (a, Said(NotSure))
  }

  /** `handle_input(user_input)`. `db` answers the details lookup and `llm`
      is the language model's reply, or the exception it raises. Changes made
      before the model call survive an exception from it. */
  function HandleInput(a: Agent, raw: string, db: Db, llm: Result<string>): (r: (Agent, Outcome))
    requires ValidAgent(a)
    ensures ValidAgent(r.0)
    ensures r.0.schemes == a.schemes
  {
    match a.phase
    case Exit => (a, Said(Farewell))
    case ListSchemes => ListTurn(a, Normalized(raw), db, llm)
    case SelectDetail => DetailTurn(a, Normalized(raw), llm)
  }

  /** `exit` is absorbing: every input gets the farewell and changes nothing. */
  lemma ExitAbsorbing(a: Agent, raw: string, db: Db, llm: Result<string>)
    requires ValidAgent(a) && a.phase == Exit
    ensures HandleInput(a, raw, db, llm) == (a, Said(Farewell))
  {
  }

  /** "quit", in any case and surrounded by any whitespace, ends the
      conversation from either live state and changes nothing else. */
  lemma QuitExits(a: Agent, raw: string, db: Db, llm: Result<string>)
    requires ValidAgent(a) && a.phase != Exit && Normalized(raw) == "quit"
    ensures HandleInput(a, raw, db, llm) == (a.(phase := Exit), Said(Farewell))
  {
  }

  /** Choosing entry N of the list when its details exist shows that scheme:
      it becomes the selection, the state moves to `select_detail`, and the
      exchange is remembered when the model answers. */
  lemma SelectShowsScheme(a: Agent, raw: string, rows: map<Json, Row>, text: string, n: int)
    requires ValidAgent(a) && a.phase == ListSchemes
    requires Normalized(raw) != "quit" && ParseInt(Normalized(raw)) == Some(n) && 1 <= n <= |a.schemes|
    requires MetaOf(a.schemes[n - 1])["scheme_id"] in rows
    ensures var r := HandleInput(a, raw, Db(rows), Success(text));
      && r.0.phase == SelectDetail
      && r.0.selected == Some(a.schemes[n - 1])
      && r.0.details == FetchDetails(Db(rows), MetaOf(a.schemes[n - 1])["scheme_id"])
      && r.0.memory == a.memory + [UserMessage(Normalized(raw)), AiMessage(Strip(text))]
      && r.1 == Said(Strip(text))
  {
    var input := Normalized(raw);
    assert HandleInput(a, raw, Db(rows), Success(text)) == ListTurn(a, input, Db(rows), Success(text));
    assert ListTurn(a, input, Db(rows), Success(text)) == ChooseTurn(a, input, n, Db(rows), Success(text));
    var chosen := a.schemes[n - 1];
    var row := FetchDetails(Db(rows), MetaOf(chosen)["scheme_id"]);
    assert row.Some?;
    assert ChooseTurn(a, input, n, Db(rows), Success(text)) == ShowChosen(a, input, chosen, row.value, Success(text));
  }

  /** Choosing an entry whose details are missing leaves the agent as it was. */
  lemma SelectMissingDetails(a: Agent, raw: string, db: Db, llm: Result<string>, n: int)
    requires ValidAgent(a) && a.phase == ListSchemes
    requires Normalized(raw) != "quit" && ParseInt(Normalized(raw)) == Some(n) && 1 <= n <= |a.schemes|
    requires FetchDetails(db, MetaOf(a.schemes[n - 1])["scheme_id"]).None?
    ensures HandleInput(a, raw, db, llm).0 == a
  {
    var input := Normalized(raw);
    assert HandleInput(a, raw, db, llm) == ListTurn(a, input, db, llm);
    assert ListTurn(a, input, db, llm) == ChooseTurn(a, input, n, db, llm);
  }

  /** While listing, input that is not "quit" and not a number leaves the
      agent unchanged and answers with the list. */
  lemma ListNonNumber(a: Agent, raw: string, db: Db, llm: Result<string>)
    requires ValidAgent(a) && a.phase == ListSchemes
    requires Normalized(raw) != "quit" && ParseInt(Normalized(raw)).None?
    ensures HandleInput(a, raw, db, llm) == (a, ThenList(NotUnderstood, a.schemes))
  {
    NonNumberTurn(a, Normalized(raw), db, llm);
  }

  lemma NonNumberTurn(a: Agent, input: string, db: Db, llm: Result<string>)
    requires ValidAgent(a) && a.phase == ListSchemes
    requires input != "quit" && ParseInt(input).None?
    ensures ListTurn(a, input, db, llm) == (a, ThenList(NotUnderstood, a.schemes))
  {
  }

  /** While listing, a number outside 1..N leaves the agent unchanged and
      answers with the valid range and the list. */
  lemma ListOutOfRange(a: Agent, raw: string, db: Db, llm: Result<string>, n: int)
    requires ValidAgent(a) && a.phase == ListSchemes
    requires Normalized(raw) != "quit" && ParseInt(Normalized(raw)) == Some(n) && !(1 <= n <= |a.schemes|)
    ensures HandleInput(a, raw, db, llm) ==
      (a, ThenList("Hmm, please enter a number between 1 and " + NatToDecimal(|a.schemes|) + ".\n\n", a.schemes))
  {
    OutOfRangeTurn(a, Normalized(raw), db, llm, n);
  }

  lemma OutOfRangeTurn(a: Agent, input: string, db: Db, llm: Result<string>, n: int)
    requires ValidAgent(a) && a.phase == ListSchemes
    requires input != "quit" && ParseInt(input) == Some(n) && !(1 <= n <= |a.schemes|)
    ensures ListTurn(a, input, db, llm) ==
      (a, ThenList("Hmm, please enter a number between 1 and " + NatToDecimal(|a.schemes|) + ".\n\n", a.schemes))
  {
  }

  /** The reply to such input ends with the rendered list. */
  lemma ThenListSays(prefix: string, ss: seq<Json>)
    requires forall i :: 0 <= i < |ss| ==> Named(ss[i])
    requires RenderList(ss).Success?
    ensures ThenList(prefix, ss) == Said(prefix + RenderList(ss).value)
  {
  }

  /** "back", "go back" or "return" while showing a scheme returns to the
      list and clears the selection and its details. */
  lemma BackReturnsToList(a: Agent, raw: string, db: Db, llm: Result<string>)
    requires ValidAgent(a) && a.phase == SelectDetail
    requires Normalized(raw) in BackWords
    ensures var r := HandleInput(a, raw, db, llm).0;
      r == a.(selected := None, details := None, phase := ListSchemes)
  {
    BackTurn(a, Normalized(raw), llm);
  }

  lemma BackTurn(a: Agent, input: string, llm: Result<string>)
    requires ValidAgent(a) && a.phase == SelectDetail
    requires input in BackWords
    ensures DetailTurn(a, input, llm).0 == a.(selected := None, details := None, phase := ListSchemes)
  {
  }

  /** An eligibility question or "tell me" keeps the state and the selection
      and adds exactly two messages to the memory. */
  lemma QuestionAnswered(a: Agent, raw: string, db: Db, text: string)
    requires ValidAgent(a) && a.phase == SelectDetail
    requires Normalized(raw) != "quit" && Normalized(raw) !in BackWords
    requires AsksEligibility(Normalized(raw)) || Normalized(raw) == "tell me"
    ensures var r := HandleInput(a, raw, db, Success(text));
      && r.0.(memory := a.memory) == a
      && |r.0.memory| == |a.memory| + 2
      && r.1 == Said(Strip(text))
  {
    assert HandleInput(a, raw, db, Success(text)) == DetailTurn(a, Normalized(raw), Success(text));
  }

  /** Any other input while showing a scheme changes nothing. */
  lemma SelectOtherInput(a: Agent, raw: string, db: Db, llm: Result<string>)
    requires ValidAgent(a) && a.phase == SelectDetail
    requires Normalized(raw) != "quit" && Normalized(raw) !in BackWords
    requires !AsksEligibility(Normalized(raw)) && Normalized(raw) != "tell me"
    ensures HandleInput(a, raw, db, llm) == (a, Said(NotSure))
  {
    assert HandleInput(a, raw, db, llm) == DetailTurn(a, Normalized(raw), llm);
  }

  /** A word containing "st" counts as an eligibility question, so "just"
      reaches the language model rather than the "not sure" reply. */
  lemma SubstringKeyword()
    ensures AsksEligibility("just")
  {
    assert "st" in EligibilityKeywords;
    assert OccursAt("just", "st", 2);
  }

  /** Normalising is idempotent, so a turn sees the same input whether the
      caller has already stripped and lower-cased it or not. */
  lemma NormalizedIdempotent(raw: string)
    ensures Normalized(Normalized(raw)) == Normalized(raw)
  {
    var t := Strip(raw);
    var l := Lower(t);
    TrimIdempotent(raw, IsSpace);
    assert Strip(l) == l by {
      if |l| > 0 {
        assert !IsSpace(t[0]) && !IsSpace(t[|t| - 1]);
        assert l[0] == LowerChar(t[0]) && l[|l| - 1] == LowerChar(t[|t| - 1]);
        LowerKeepsSpace(t[0]);
        LowerKeepsSpace(t[|t| - 1]);
        TrimUntouched(l, IsSpace);
      }
    }
    LowerIdempotent(t);
  }

  /** Lower-casing neither creates nor removes whitespace. */
  lemma LowerKeepsSpace(c: char)
    ensures IsSpace(LowerChar(c)) <==> IsSpace(c)
  {
  }
}
