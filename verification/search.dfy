/** The scheme search agent: profile loading and sanitising, the query
    fallback, normalising index matches into candidates, the state filter,
    re-ranking, and the flat records saved for the display agent. */
module SchemeSearch {
  import opened Wrappers
  import opened Text
  import opened Seqs
  import opened PyJson
  import opened Schemes
  import opened Ranking

  // ---------------------------------------------------------------------------
  // sanitize_input
  // ---------------------------------------------------------------------------

  /** A regular-expression word character `\w`, restricted to ASCII. */
  predicate IsWordChar(c: char) {
    IsAsciiLetter(c) || IsDigit(c) || c == '_'
  }

  /** The characters `re.sub(r'[^\w\s.,-]', '', text)` keeps. */
  predicate Kept(c: char) {
    IsWordChar(c) || IsSpace(c) || c == '.' || c == ',' || c == '-'
  }

  /** `sanitize_input(text)`: the empty string for a value that is not text,
      otherwise the kept characters of the text in their original order. */
  function SanitizeInput(v: Json): (r: string)
    ensures !v.JStr? ==> r == ""
    ensures forall i :: 0 <= i < |r| ==> Kept(r[i])
  {
    if v.JStr? then Filter(Kept, v.s) else ""
  }

  /** Sanitising deletes exactly the characters outside `\w`, `\s` and `.,-`:
      the result is a subsequence of the input holding every kept character,
      and sanitising it again changes nothing. */
  lemma SanitizeInputCorrect(s: string)
    ensures IsSubsequence(SanitizeInput(JStr(s)), s)
    ensures forall i :: 0 <= i < |s| ==> (s[i] in SanitizeInput(JStr(s)) <==> Kept(s[i]))
    ensures SanitizeInput(JStr(SanitizeInput(JStr(s)))) == SanitizeInput(JStr(s))
    ensures (forall i :: 0 <= i < |s| ==> Kept(s[i])) ==> SanitizeInput(JStr(s)) == s
  {
    FilterIsSubsequence(Kept, s);
    FilterIdempotent(Kept, s);
    if forall i :: 0 <= i < |s| ==> Kept(s[i]) {
      FilterAll(Kept, s);
    }
  }

  // ---------------------------------------------------------------------------
  // load_user_details
  // ---------------------------------------------------------------------------

  const RequiredProfileKeys: seq<string> := ["state", "gender", "occupation", "income"]

  /** `[f for f in keys if f not in data]`; a value that does not support
      `in` raises. */
  function MissingKeys(data: Json, keys: seq<string>): (r: Result<seq<string>>)
    ensures data.JObj? ==> r == Success(Filter((k: string) => k !in data.fields, keys))
  {
    if |keys| == 0 then Success([])
    else
      var present :- In(keys[0], data);
      var rest :- MissingKeys(data, keys[1..]);
      Success((if present then [] else [keys[0]]) + rest)
  }

  function Lookup(d: map<string, string>, k: string, default: string): (r: string) {
    if k in d then d[k] else default
  }

  /** `{k: sanitize_input(str(v)) for k, v in data.items()}`. */
  function SanitizedFields(fields: map<string, Json>): (m: map<string, string>)
    ensures m.Keys == fields.Keys
    ensures forall k :: k in fields ==> m[k] == SanitizeInput(JStr(Str(fields[k])))
  {
    map k | k in fields :: SanitizeInput(JStr(Str(fields[k])))
  }

  /** Sets `caste` to the existing caste, else the category, else "". */
  function WithCaste(m: map<string, string>): (d: map<string, string>)
    ensures d.Keys == m.Keys + {"caste"}
    ensures forall k :: k in m && k != "caste" ==> d[k] == m[k]
    ensures d["caste"] == Lookup(m, "caste", Lookup(m, "category", ""))
  {
    m["caste" := Lookup(m, "caste", Lookup(m, "category", ""))]
  }

  /** `load_user_details` on the decoded file: reject a profile that lacks a
      required key, sanitise `str(v)` of every value, then set `caste` to the
      existing caste, else the category, else "". */
  function LoadUserDetails(data: Json): (r: Result<map<string, string>>)
    ensures r.Success? <==> data.JObj? && forall k :: k in RequiredProfileKeys ==> k in data.fields
    ensures r.Success? ==> r.value == WithCaste(SanitizedFields(data.fields))
  {
    var missing :- MissingKeys(data, RequiredProfileKeys);
    if |missing| > 0 then Failure(MissingFields(missing))
    else if !data.JObj? then Failure(AttributeError)
    else
      assert forall k :: k in RequiredProfileKeys ==> k in data.fields by {
        FilterEmptyIff((k: string) => k !in data.fields, RequiredProfileKeys);
      }
      Success(WithCaste(SanitizedFields(data.fields)))
  }

  /** A loaded profile keeps every key of the file plus `caste`, each value
      the sanitised rendering of the original, and `caste` falls back to the
      category and then to "". */
  lemma LoadUserDetailsValues(data: Json)
    requires LoadUserDetails(data).Success?
    ensures var d := LoadUserDetails(data).value;
      && d.Keys == data.fields.Keys + {"caste"}
      && (forall k :: k in data.fields && k != "caste" ==> d[k] == SanitizeInput(JStr(Str(data.fields[k]))))
      && d["caste"] == (if "caste" in data.fields then SanitizeInput(JStr(Str(data.fields["caste"])))
                        else if "category" in data.fields then SanitizeInput(JStr(Str(data.fields["category"])))
                        else "")
      && forall k :: k in RequiredProfileKeys ==> k in d
  {
  }

  /** A profile without one of state, gender, occupation or income is
      rejected, naming exactly the absent keys in order. */
  lemma LoadUserDetailsRejects(fields: map<string, Json>)
    requires exists k :: k in RequiredProfileKeys && k !in fields
    ensures LoadUserDetails(JObj(fields)) ==
      Failure(MissingFields(Filter((k: string) => k !in fields, RequiredProfileKeys)))
  {
    var missing := Filter((k: string) => k !in fields, RequiredProfileKeys);
    FilterEmptyIff((k: string) => k !in fields, RequiredProfileKeys);
    assert missing != [];
  }

  // ---------------------------------------------------------------------------
  // generate_query
  // ---------------------------------------------------------------------------

  /** The fields the fallback query is built from, in order; the caste
      defaults to "all castes" only when the key is absent. */
  function QueryFields(d: map<string, string>): (r: seq<string>) {
    [ Lookup(d, "state", ""),
      Lookup(d, "gender", ""),
      Lookup(d, "caste", "all castes"),
      Lookup(d, "occupation", ""),
      Lookup(d, "income", ""),
      Lookup(d, "additional_details", "") ]
  }

  function NonEmpty(s: string): (r: bool) {
    s != ""
  }

  /** `". ".join(filter(None, fields))`: the fallback used when the language
      model call raises. */
  function FallbackQuery(d: map<string, string>): (r: string) {
    Join(". ", Filter(NonEmpty, QueryFields(d)))
  }

  /** `generate_query`: the stripped reply of the language model, or the
      fallback when the call fails. It never raises. */
  function GenerateQuery(d: map<string, string>, reply: Option<string>): (q: string)
    ensures reply.Some? ==> q == Strip(reply.value)
    ensures reply.None? ==> q == FallbackQuery(d)
  {
    match reply
    case Some(text) => Strip(text)
    case None => FallbackQuery(d)
  }

  /** The fallback names every non-empty field, and it is empty exactly when
      every field is empty. */
  lemma FallbackQueryCorrect(d: map<string, string>)
    ensures forall k :: 0 <= k < 6 && QueryFields(d)[k] != "" ==> Contains(FallbackQuery(d), QueryFields(d)[k])
    ensures FallbackQuery(d) == "" <==> forall k :: 0 <= k < 6 ==> QueryFields(d)[k] == ""
  {
    var fs := QueryFields(d);
    var kept := Filter(NonEmpty, fs);
    forall k | 0 <= k < 6 && fs[k] != "" ensures Contains(FallbackQuery(d), fs[k]) {
      assert fs[k] in kept;
      var j :| 0 <= j < |kept| && kept[j] == fs[k];
      JoinContainsItems(". ", kept, j);
    }
    JoinEmptyIff(". ", kept);
    FilterEmptyIff(NonEmpty, fs);
  }

  /** After loading, `caste` is always present, so the fallback never falls
      back to "all castes": its third field is the loaded caste. */
  lemma LoadedProfileHasCaste(data: Json)
    requires LoadUserDetails(data).Success?
    ensures var d := LoadUserDetails(data).value;
      "caste" in d && QueryFields(d)[2] == d["caste"]
  {
  }

  /** Sanitising can empty every field of a profile that passes loading:
      a file whose values are all "@" loads, and its fallback query is the
      empty string. */
  lemma FallbackQueryCanBeEmpty(fields: map<string, Json>)
    requires forall k :: k in RequiredProfileKeys ==> k in fields
    requires forall k :: k in fields ==> fields[k] == JStr("@")
    ensures LoadUserDetails(JObj(fields)).Success?
    ensures FallbackQuery(LoadUserDetails(JObj(fields)).value) == ""
  {
    AtSignSanitizedAway();
    assert forall k :: k in fields ==> SanitizeInput(JStr(Str(fields[k]))) == "";
    LoadBlank(fields);
    BlankFallback(LoadUserDetails(JObj(fields)).value);
  }

  /** "@" is not a kept character. */
  lemma AtSignSanitizedAway()
    ensures SanitizeInput(JStr("@")) == ""
  {
    assert !Kept('@');
    assert "@" == [] + ['@'];
  }

  /** A profile with a caste and only empty values has an empty fallback. */
  lemma BlankFallback(d: map<string, string>)
    requires "caste" in d
    requires forall k :: k in d ==> d[k] == ""
    ensures FallbackQuery(d) == ""
  {
    assert forall k :: 0 <= k < 6 ==> QueryFields(d)[k] == "";
    FallbackQueryCorrect(d);
  }

  /** A file whose every value sanitises to nothing loads into a profile
      whose every value, `caste` included, is empty. */
  lemma LoadBlank(fields: map<string, Json>)
    requires forall k :: k in RequiredProfileKeys ==> k in fields
    requires forall k :: k in fields ==> SanitizeInput(JStr(Str(fields[k]))) == ""
    ensures LoadUserDetails(JObj(fields)).Success?
    ensures "caste" in LoadUserDetails(JObj(fields)).value
    ensures forall k :: k in LoadUserDetails(JObj(fields)).value ==> LoadUserDetails(JObj(fields)).value[k] == ""
  {
    var m := SanitizedFields(fields);
    var d := WithCaste(m);
    assert LoadUserDetails(JObj(fields)) == Success(d);
    assert Lookup(m, "category", "") == "";
    forall k | k in d ensures d[k] == "" {
      if k != "caste" {
        assert m[k] == "";
      }
    }
  }

  // ---------------------------------------------------------------------------
  // search_pinecone
  // ---------------------------------------------------------------------------

  /** The metadata keys searched for an identifier, in priority order. */
  const IdKeys: seq<string> := ["scheme_id", "schemeId", "SchemeID", "id", "scheme_id "]

  /** The value under the first key of `keys` present in `meta`. */
  function FindId(meta: map<string, Json>, keys: seq<string>): (r: Option<Json>)
    ensures r.None? <==> forall i :: 0 <= i < |keys| ==> keys[i] !in meta
    ensures r.Some? ==> exists i :: 0 <= i < |keys| && keys[i] in meta && r.value == meta[keys[i]]
                                   && forall j :: 0 <= j < i ==> keys[j] !in meta
  {
    if |keys| == 0 then None
    else if keys[0] in meta then Some(meta[keys[0]])
    else
      var r := FindId(meta, keys[1..]);
      assert forall i :: 1 <= i < |keys| ==> keys[i] == keys[1..][i - 1];
      r
  }

  /** The match survives normalisation: its metadata has a truthy `scheme_name`. */
  predicate HasName(m: Match) {
    Truthy(Get(m.metadata, "scheme_name", JNull))
  }

  /** The identifier of a match: `str()` of the value under the first
      identifier key found. When no key is present, or the first one found
      holds `None`, the placeholder is synthesised (which raises for a state
      that is not text). */
  function ResolveId(meta: map<string, Json>, md5: string -> nat): (r: Result<string>)
    ensures var found := FindId(meta, IdKeys);
      var synth := SynthesizeId(Get(meta, "scheme_name", JStr("unknown")), Get(meta, "state", JStr("unknown")), md5);
      && (found.Some? && !found.value.JNull? ==> r == Success(Str(found.value)))
      && (found.None? || found.value.JNull? ==> r == synth)
    ensures var found := FindId(meta, IdKeys);
      r.Failure? <==> (found.None? || found.value.JNull?) && !Get(meta, "state", JStr("unknown")).JStr?
  {
    match FindId(meta, IdKeys)
    case Some(v) =>
      if v.JNull? then SynthesizeId(Get(meta, "scheme_name", JStr("unknown")), Get(meta, "state", JStr("unknown")), md5)
      else Success(Str(v))
    case None => SynthesizeId(Get(meta, "scheme_name", JStr("unknown")), Get(meta, "state", JStr("unknown")), md5)
  }

  /** An identifier key that is present but holds `None` does not become the
      text "None": the loop breaks on it, and the `is None` test then
      synthesises the placeholder, which starts with "SCH-". */
  lemma NullIdSynthesized(meta: map<string, Json>, name: string, state: string, md5: string -> nat)
    requires "scheme_id" in meta && meta["scheme_id"] == JNull
    requires Get(meta, "scheme_name", JStr("unknown")) == JStr(name)
    requires Get(meta, "state", JStr("unknown")) == JStr(state)
    ensures ResolveId(meta, md5) == SynthesizeId(JStr(name), JStr(state), md5)
    ensures ResolveId(meta, md5).Success? && ResolveId(meta, md5).value[..4] == "SCH-"
    ensures ResolveId(meta, md5) != Success("None")
  {
    assert FindId(meta, IdKeys) == Some(JNull);
    SynthesizedIdShape(JStr(name), state, md5);
    assert "None"[..4] == "None" && "None"[0] != "SCH-"[0];
  }

  /** The candidate record built from one match. */
  function Normalize(m: Match, md5: string -> nat): (r: Result<Candidate>) {
    var sid :- ResolveId(m.metadata, md5);
    Success(ToCandidate(m, sid))
  }

  /** The seven-field record of a match under identifier `sid`; absent fields become "". */
  function ToCandidate(m: Match, sid: string): (c: Candidate)
    ensures c.id == m.id && c.score == m.score && c.meta.schemeId == sid
    ensures c.meta.schemeName == Get(m.metadata, "scheme_name", JStr(""))
  {
    var md := m.metadata;
    Candidate(m.id, m.score, SchemeMeta(
      sid,
      Get(md, "scheme_name", JStr("")),
      Get(md, "brief_description", JStr("")),
      Get(md, "eligibility_criteria", JStr("")),
      Get(md, "state", JStr("")),
      Get(md, "tags", JStr("")),
      Get(md, "category", JStr(""))))
  }

  /** The loop of `search_pinecone`: skip matches without a name, normalise
      the rest in order; the first exception aborts. */
  function NormalizeAll(ms: seq<Match>, md5: string -> nat): (r: Result<seq<Candidate>>) {
    if |ms| == 0 then Success([])
    else if !HasName(ms[0]) then NormalizeAll(ms[1..], md5)
    else
      var c :- Normalize(ms[0], md5);
      var rest :- NormalizeAll(ms[1..], md5);
      Success([c] + rest)
  }

  /** Every match of `ns` normalises without raising. */
  predicate AllNormalize(ns: seq<Match>, md5: string -> nat) {
    forall i :: 0 <= i < |ns| ==> Normalize(ns[i], md5).Success?
  }

  /** The records of matches that all normalise, in order. */
  function NormalizeEach(ns: seq<Match>, md5: string -> nat): (r: seq<Candidate>)
    requires AllNormalize(ns, md5)
    ensures |r| == |ns|
    ensures forall i :: 0 <= i < |ns| ==> r[i] == Normalize(ns[i], md5).value
  {
    if |ns| == 0 then [] else [Normalize(ns[0], md5).value] + NormalizeEach(ns[1..], md5)
  }

  /** Normalising is "filter, then map": it succeeds exactly when every named
      match normalises, and then yields those matches' records in index order. */
  lemma {:induction false} NormalizeAllIsFilterMap(ms: seq<Match>, md5: string -> nat)
    ensures NormalizeAll(ms, md5).Success? <==> AllNormalize(Filter(HasName, ms), md5)
    ensures NormalizeAll(ms, md5).Success? ==>
      NormalizeAll(ms, md5).value == NormalizeEach(Filter(HasName, ms), md5)
  {
    if |ms| > 0 {
      NormalizeAllIsFilterMap(ms[1..], md5);
      var named := Filter(HasName, ms);
      var rest := Filter(HasName, ms[1..]);
      if HasName(ms[0]) {
        assert named == [ms[0]] + rest;
        assert named[1..] == rest;
        if Normalize(ms[0], md5).Success? {
          assert AllNormalize(named, md5) <==> AllNormalize(rest, md5) by {
            if AllNormalize(rest, md5) {
              forall i | 0 <= i < |named| ensures Normalize(named[i], md5).Success? {
                if i > 0 { assert named[i] == rest[i - 1]; }
              }
            } else {
              var i :| 0 <= i < |rest| && !Normalize(rest[i], md5).Success?;
              assert named[i + 1] == rest[i];
            }
          }
        } else {
          assert !Normalize(named[0], md5).Success?;
        }
      } else {
        assert named == rest;
      }
    }
  }

  /** `search_pinecone`: `matches` is the index's answer, `None` when the
      query raised; any exception yields the empty list. */
  function SearchIndex(matches: Option<seq<Match>>, md5: string -> nat): (r: seq<Candidate>)
    ensures matches.None? ==> r == []
  {
    match matches
    case None => []
    case Some(ms) =>
      match NormalizeAll(ms, md5)
      case Success(cs) => cs
      case Failure(_) => []
  }

  /** Every returned candidate came from a named match, in index order, keeps
      its vector id and similarity, and carries a truthy name; there are never
      more candidates than matches. */
  lemma SearchIndexCorrect(ms: seq<Match>, md5: string -> nat)
    ensures var r := SearchIndex(Some(ms), md5);
      var named := Filter(HasName, ms);
      && |r| <= |ms|
      && (r != [] ==> |r| == |named|)
      && forall i :: 0 <= i < |r| ==>
           && r[i].id == named[i].id
           && r[i].score == named[i].score
           && r[i].meta.schemeName == named[i].metadata["scheme_name"]
           && Truthy(r[i].meta.schemeName)
  {
    NormalizeAllIsFilterMap(ms, md5);
  }

  /** A named match whose metadata has no identifier key and whose state is
      not text makes the whole search return nothing. */
  lemma SearchIndexAbortsOnBadState(ms: seq<Match>, md5: string -> nat, k: nat)
    requires k < |ms| && HasName(ms[k])
    requires forall i :: 0 <= i < |IdKeys| ==> IdKeys[i] !in ms[k].metadata
    requires "state" in ms[k].metadata && !ms[k].metadata["state"].JStr?
    ensures SearchIndex(Some(ms), md5) == []
  {
    NormalizeAllIsFilterMap(ms, md5);
    var named := Filter(HasName, ms);
    assert ms[k] in named;
    var i :| 0 <= i < |named| && named[i] == ms[k];
    assert !Normalize(named[i], md5).Success?;
  }

  // ---------------------------------------------------------------------------
  // The state filter of search_schemes
  // ---------------------------------------------------------------------------

  /** A candidate matches the user's (lower-cased) state when its own
      lower-cased state equals it or names a nationwide scheme. */
  predicate GeoMatch(userState: string, m: SchemeMeta) {
    var st := Lower(Str(m.state));
    userState == st || Contains(st, "all india") || Contains(st, "central") || Contains(st, "nationwide")
  }

  function GeoPred(userState: string): (r: Candidate -> bool) {
    (c: Candidate) => GeoMatch(userState, c.meta)
  }

  /** `str(user_details.get('state', '')).lower()`. */
  function UserState(d: map<string, string>): (r: string) {
    Lower(Lookup(d, "state", ""))
  }

  function GeoFilter(userState: string, cs: seq<Candidate>): (r: seq<Candidate>) {
    Filter(GeoPred(userState), cs)
  }

  /** The filter keeps exactly the matching candidates, in order, and is
      idempotent. */
  lemma GeoFilterCorrect(userState: string, cs: seq<Candidate>)
    ensures IsSubsequence(GeoFilter(userState, cs), cs)
    ensures forall c :: c in GeoFilter(userState, cs) <==> c in cs && GeoMatch(userState, c.meta)
    ensures GeoFilter(userState, GeoFilter(userState, cs)) == GeoFilter(userState, cs)
  {
    FilterIsSubsequence(GeoPred(userState), cs);
    FilterIdempotent(GeoPred(userState), cs);
  }

  /** A scheme whose state reads "All India" is kept whatever the user's state. */
  lemma AllIndiaKept(user: string, m: SchemeMeta)
    requires m.state == JStr("All India")
    ensures GeoMatch(Lower(user), m)
  {
    assert Lower("All India") == "all india";
    ContainsSelf("all india");
  }

  /** A scheme for Karnataka is kept exactly when the user's state is
      Karnataka in any letter case. */
  lemma KarnatakaKeptOnlyForKarnataka(user: string, m: SchemeMeta)
    requires m.state == JStr("Karnataka")
    ensures GeoMatch(Lower(user), m) <==> Lower(user) == "karnataka"
  {
    var st := Lower("Karnataka");
    assert st == "karnataka";
    assert !Contains(st, "all india") by {
      forall i | 0 <= i <= |st| - 9 ensures !OccursAt(st, "all india", i) {
        assert st[i..i + 9][0] == st[0] == 'k';
      }
    }
    assert !Contains(st, "nationwide") by {
      assert |"nationwide"| > |st|;
    }
    assert !Contains(st, "central") by {
      forall i | 0 <= i <= |st| - 7 ensures !OccursAt(st, "central", i) {
        assert st[i..i + 7][0] == st[i];
      }
    }
  }

  // ---------------------------------------------------------------------------
  // save_recommended_schemes
  // ---------------------------------------------------------------------------

  /** The flat record saved for one re-ranked scheme. */
  function SavedRecord(r: Ranked): (res: map<string, Json>) {
    map[
      "scheme_id" := JStr(r.meta.schemeId),
      "scheme_name" := r.meta.schemeName,
      "brief_description" := r.meta.briefDescription,
      "eligibility_criteria" := r.meta.eligibilityCriteria,
      "state" := r.meta.state,
      "tags" := r.meta.tags,
      "category" := r.meta.category,
      "llm_score" := JInt(r.llmScore),
      "pinecone_score" := JFloat(r.pineconeScore)]
  }

  /** The JSON array `save_recommended_schemes` writes. */
  function SavedJson(rs: seq<Ranked>): (j: Json)
    ensures j.JArr? && |j.items| == |rs|
    ensures forall i :: 0 <= i < |rs| ==> j.items[i] == JObj(SavedRecord(rs[i]))
  {
    JArr(seq(|rs|, i requires 0 <= i < |rs| => JObj(SavedRecord(rs[i]))))
  }

  // ---------------------------------------------------------------------------
  // search_schemes
  // ---------------------------------------------------------------------------

  /** The external answers one search run receives: the query-writing reply
      (`None` when the call raises), the index matches (`None` when the query
      raises), the scoring reply for each batch, and MD5 read as an integer. */
  datatype Services = Services(
    queryReply: Option<string>,
    matches: Option<seq<Match>>,
    scoring: nat -> Reply,
    md5: string -> nat)

  /** What a search run returns, the query it embedded, and the JSON it saved. */
  datatype SearchRun = SearchRun(schemes: seq<Ranked>, query: string, saved: Json)

  const SearchTopK: int := 20
  const ScoringBatchSize: int := 5

  /** `search_schemes` on the decoded profile file. */
  function SearchSchemes(profile: Json, sv: Services): (r: Result<SearchRun>) {
    var details :- LoadUserDetails(profile);
    var query := GenerateQuery(details, sv.queryReply);
    var found := SearchIndex(sv.matches, sv.md5);
    if |found| == 0 then Success(SearchRun([], query, SavedJson([])))
    else
      var local := GeoFilter(UserState(details), found);
      if |local| == 0 then Success(SearchRun([], query, SavedJson([])))
      else
        var ranked :- Rerank(local, SearchTopK, ScoringBatchSize, sv.scoring);
        Success(SearchRun(ranked, query, SavedJson(ranked)))
  }

  /** The candidates handed to re-ranking: the named index matches whose
      state matches the user's. */
  function Local(details: map<string, string>, sv: Services): (r: seq<Candidate>) {
    GeoFilter(UserState(details), SearchIndex(sv.matches, sv.md5))
  }

  /** A search that returns saved what it returned, and returned either
      nothing or the re-ranking of the local candidates. */
  lemma SearchSchemesSteps(profile: Json, sv: Services)
    requires SearchSchemes(profile, sv).Success?
    ensures LoadUserDetails(profile).Success?
    ensures SearchSchemes(profile, sv).value.saved == SavedJson(SearchSchemes(profile, sv).value.schemes)
    ensures SearchSchemes(profile, sv).value.schemes == []
      || (&& Rerank(Local(LoadUserDetails(profile).value, sv), SearchTopK, ScoringBatchSize, sv.scoring).Success?
          && SearchSchemes(profile, sv).value.schemes
             == Rerank(Local(LoadUserDetails(profile).value, sv), SearchTopK, ScoringBatchSize, sv.scoring).value)
  {
  }

  /** Every local candidate has a truthy name and a state matching the user's. */
  lemma LocalNamedAndMatching(details: map<string, string>, sv: Services)
    ensures forall c :: c in Local(details, sv) ==>
      Truthy(c.meta.schemeName) && GeoMatch(UserState(details), c.meta)
  {
    var found := SearchIndex(sv.matches, sv.md5);
    GeoFilterCorrect(UserState(details), found);
    if sv.matches.Some? {
      SearchIndexCorrect(sv.matches.value, sv.md5);
    }
    forall c | c in Local(details, sv)
      ensures Truthy(c.meta.schemeName) && GeoMatch(UserState(details), c.meta)
    {
      assert c in found;
      var i :| 0 <= i < |found| && found[i] == c;
    }
  }

  /** End to end: a search that returns saves exactly what it returns; it
      returns at most 20 schemes, sorted by (llm_score, pinecone_score), each
      with a truthy name, a state matching the user's, and a score in [0, 100]. */
  lemma SearchSchemesCorrect(profile: Json, sv: Services)
    requires SearchSchemes(profile, sv).Success?
    ensures var run := SearchSchemes(profile, sv).value;
      var details := LoadUserDetails(profile).value;
      && run.saved == SavedJson(run.schemes)
      && |run.schemes| <= SearchTopK
      && SortedDesc(run.schemes)
      && forall x :: x in run.schemes ==>
           && Truthy(x.meta.schemeName)
           && GeoMatch(UserState(details), x.meta)
           && 0 <= x.llmScore <= 100
  {
    SearchSchemesSteps(profile, sv);
    var details := LoadUserDetails(profile).value;
    var local := Local(details, sv);
    var schemes := SearchSchemes(profile, sv).value.schemes;
    if schemes != [] {
      RerankCorrect(local, SearchTopK, ScoringBatchSize, sv.scoring);
      LocalNamedAndMatching(details, sv);
      forall x | x in schemes
        ensures Truthy(x.meta.schemeName) && GeoMatch(UserState(details), x.meta) && 0 <= x.llmScore <= 100
      {
        var j :| 0 <= j < |local| && Keeps(x, local[j]);
        assert local[j] in local;
      }
    }
  }

  /** An end-to-end case: of two named matches in Telangana
      and Kerala, only the Telangana one survives the state filter of a
      Telangana user. */
  lemma TelanganaExample(a: Candidate, b: Candidate)
    requires a.meta.state == JStr("Telangana") && b.meta.state == JStr("Kerala")
    ensures GeoFilter(Lower("Telangana"), [a, b]) == [a]
  {
    var u := Lower("Telangana");
    assert u == "telangana";
    assert Lower("Kerala") == "kerala";
    assert GeoMatch(u, a.meta);
    assert !GeoMatch(u, b.meta);
    assert [a, b][1..] == [b];
    assert Filter(GeoPred(u), [b]) == [];
    assert Filter(GeoPred(u), [a, b]) == [a] + Filter(GeoPred(u), [b]);
  }

}
