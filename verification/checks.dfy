/** The validation both front ends apply before and after a search: the
    profile must name all seven fields, and only schemes with a name are kept. */
module Checks {
  import opened Wrappers
  import opened Seqs
  import opened PyJson
  import opened SchemeDisplay

  const RequiredFields: seq<string> := ["name", "state", "gender", "caste", "occupation", "category", "income"]

  /** `profile.get(field)` is truthy. */
  predicate Present(profile: map<string, Json>, field: string) {
    field in profile && Truthy(profile[field])
  }

  /** `[field for field in required_fields if not profile.get(field)]`. */
  function Missing(profile: map<string, Json>): (r: seq<string>)
    ensures forall f :: f in r <==> f in RequiredFields && !Present(profile, f)
  {
    Filter((f: string) => !Present(profile, f), RequiredFields)
  }

  /** `validate_user_profile`: no required field is missing. */
  function ValidateUserProfile(profile: map<string, Json>): (ok: bool)
    ensures ok <==> forall f :: f in RequiredFields ==> Present(profile, f)
  {
    var missing := Missing(profile);
    assert missing == [] <==> forall f :: f in RequiredFields ==> Present(profile, f) by {
      FilterEmptyIff((f: string) => !Present(profile, f), RequiredFields);
    }
    missing == []
  }

  /** `validate_schemes`: the schemes whose metadata has a truthy name, in
      order; an entry without `.get` raises. It is the same filter the display
      agent's constructor applies. */
  function ValidateSchemes(ss: seq<Json>): (r: Result<seq<Json>>)
    ensures r.Success? ==> r.value == Filter(Named, ss) && |r.value| <= |ss|
    ensures r.Failure? <==> exists i :: 0 <= i < |ss| && NamedIn(ss[i]).Failure?
  {
    KeepNamed(ss)
  }

  /** Validating validated schemes changes nothing. */
  lemma ValidateSchemesIdempotent(ss: seq<Json>)
    requires ValidateSchemes(ss).Success?
    ensures ValidateSchemes(ValidateSchemes(ss).value) == ValidateSchemes(ss)
  {
    var v := ValidateSchemes(ss).value;
    forall i | 0 <= i < |v| ensures NamedIn(v[i]).Success? {
      assert Named(v[i]);
    }
    FilterIdempotent(Named, ss);
  }
}
