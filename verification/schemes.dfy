/** Scheme records as the recommendation pipeline builds them, and the
    placeholder identifier both agents synthesise for a scheme that has none. */
module Schemes {
  import opened Wrappers
  import opened Text
  import opened PyJson

  /** One match returned by the vector index: its vector id, similarity score
      and the metadata stored beside the vector (empty when absent). */
  datatype Match = Match(id: string, score: real, metadata: map<string, Json>)

  /** The seven metadata fields every normalised candidate carries. The
      identifier is always text because the search agent passes it through `str()`. */
  datatype SchemeMeta = SchemeMeta(
    schemeId: string,
    schemeName: Json,
    briefDescription: Json,
    eligibilityCriteria: Json,
    state: Json,
    tags: Json,
    category: Json)

  /** A retrieved scheme before re-ranking: `{id, score, metadata}`. */
  datatype Candidate = Candidate(id: string, score: real, meta: SchemeMeta)

  /** A re-ranked scheme: `{id, llm_score, pinecone_score, metadata}`. */
  datatype Ranked = Ranked(id: string, llmScore: int, pineconeScore: real, meta: SchemeMeta)

  /** The metadata dict of a candidate, with exactly its seven keys. */
  function MetaToJson(m: SchemeMeta): (d: map<string, Json>)
    ensures d.Keys == {"scheme_id", "scheme_name", "brief_description", "eligibility_criteria", "state", "tags", "category"}
    ensures d["scheme_id"] == JStr(m.schemeId) && d["scheme_name"] == m.schemeName && d["state"] == m.state
  {
    map[
      "scheme_id" := JStr(m.schemeId),
      "scheme_name" := m.schemeName,
      "brief_description" := m.briefDescription,
      "eligibility_criteria" := m.eligibilityCriteria,
      "state" := m.state,
      "tags" := m.tags,
      "category" := m.category]
  }

  /** The re-ranked record as the Python dict the search agent returns to its callers. */
  function RankedToJson(r: Ranked): (j: Json)
    ensures j.JObj? && j.fields.Keys == {"id", "llm_score", "pinecone_score", "metadata"}
    ensures j.fields["metadata"] == JObj(MetaToJson(r.meta))
  {
    JObj(map[
      "id" := JStr(r.id),
      "llm_score" := JInt(r.llmScore),
      "pinecone_score" := JFloat(r.pineconeScore),
      "metadata" := JObj(MetaToJson(r.meta))])
  }

  /** The text whose MD5 digest seeds a synthesised identifier: `f"{scheme_name}_{state}"`. */
  function HashInput(name: Json, state: string): (r: string) {
    Str(name) + "_" + state
  }

  /** `f"SCH-{state[:3].upper()}-{int(md5(name_state).hexdigest(), 16) % 10000:04d}"`.
      `md5` stands for the digest read as an integer; a state that is not text
      fails at `state[:3].upper()`. */
  function SynthesizeId(name: Json, state: Json, md5: string -> nat): (r: Result<string>)
    ensures r.Success? <==> state.JStr?
    ensures r.Failure? ==> r.error == (if state.JArr? then AttributeError else TypeError)
  {
    match state
    case JStr(s) =>
      Success("SCH-" + Upper(PySlice(s, 0, 3)) + "-" + Format04(md5(HashInput(name, s)) % 10000))
    case JArr(_) => Failure(AttributeError)
    case _ => Failure(TypeError)
  }

  /** A synthesised identifier is `SCH-`, the upper-cased first (up to) three
      characters of the state, `-`, and four digits that read back as the
      digest modulo 10000. */
  lemma SynthesizedIdShape(name: Json, s: string, md5: string -> nat)
    ensures var r := SynthesizeId(name, JStr(s), md5);
      var k := if |s| < 3 then |s| else 3;
      && r.Success?
      && |r.value| == 9 + k
      && r.value[..4] == "SCH-"
      && r.value[4..4 + k] == Upper(s[..k])
      && r.value[4 + k] == '-'
      && DigitsOrUnderscores(r.value[5 + k..])
      && DigitsValue(r.value[5 + k..]) == md5(HashInput(name, s)) % 10000
  {
    var h := md5(HashInput(name, s)) % 10000;
    Format04RoundTrip(h);
    var k := if |s| < 3 then |s| else 3;
    assert PySlice(s, 0, 3) == s[..k];
    var r := "SCH-" + Upper(s[..k]) + "-" + Format04(h);
    assert r[5 + k..] == Format04(h);
  }

  /** The identifier depends on the scheme only through the rendered name and
      the state: equal renderings give equal identifiers, so the placeholder
      is stable across runs and across the two agents that compute it. */
  lemma SynthesizeIdDeterministic(n1: Json, n2: Json, state: Json, md5: string -> nat)
    requires Str(n1) == Str(n2)
    ensures SynthesizeId(n1, state, md5) == SynthesizeId(n2, state, md5)
  {
  }
}
