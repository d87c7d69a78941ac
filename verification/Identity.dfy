/**
 Identity resolution (`IdentityResolver.resolve_person`): an ordered decision between an exact
 identifier match, a fuzzy name match within an e-mail domain, and a new person, over a table of
 identifiers unique by (type, value).
 */
module Identity {
  import opened Options
  import opened Text

  // ---------------------------------------------------------------- data

  datatype Key = Key(itype: string, value: string)

  /** An inbound record; a missing field is the empty string. */
  datatype PersonRecord = PersonRecord(
    source: string, email: string, fullName: string, firstName: string, lastName: string,
    personIdInSource: string, phone: string, slackId: string, extra: seq<Key>)

  datatype Person = Person(displayName: string, firstName: string, lastName: string, email: string)

  datatype Binding = Binding(person: nat, source: string, verified: bool)

  /** Persons by number, identifiers, and contact roles as (person, organization). */
  datatype Registry = Registry(persons: seq<Person>, identities: map<Key, Binding>, roles: set<(nat, nat)>) {
    predicate Valid() { forall key :: key in identities ==> identities[key].person < |persons| }
  }

  datatype Method = IdentityExact | NameDomainFuzzy | Manual

  datatype Resolution = Resolution(person: nat, matchedBy: Method, created: bool, confidence: real)

  /** Library functions: lower-casing, what counts as space, and the similarity ratio of two names. */
  datatype Env = Env(lower: string -> string, space: char -> bool, similarity: (string, string) -> real)

  const THRESHOLD := 0.85
  const QUERY_LIMIT := 50

  // ---------------------------------------------------------------- specification

  function IdTypeForSource(source: string): string {
    match source
    case "pipedrive" => "pipedrive_person_id"
    case "fapi" => "fapi_customer_id"
    case "br" => "br_user_id"
    case "slack" => "slack_id"
    case "google" => "google_id"
    case _ => "email"
  }

  function Present(itype: string, value: string): seq<Key> { if value != "" then [Key(itype, value)] else [] }

  /** The record's identifiers in the order they are tried. */
  function Collect(env: Env, r: PersonRecord): seq<Key> {
    (if r.email != "" then [Key("email", env.lower(r.email))] else [])
    + Present("slack_id", r.slackId) + Present("phone", r.phone)
    + Present(IdTypeForSource(r.source), r.personIdInSource)
    + r.extra
  }

  function FirstHit(identities: map<Key, Binding>, keys: seq<Key>): (hit: Option<Key>)
    ensures hit.Some? ==> hit.value in identities && hit.value in keys
  {
    if keys == [] then None
    else if keys[0] in identities then Some(keys[0])
    else FirstHit(identities, keys[1..])
  }

  /** `_merge_person_fields`: fill what is empty. */
  function Merged(p: Person, r: PersonRecord): Person {
    Person(if p.displayName == "" then r.fullName else p.displayName,
           if p.firstName == "" then r.firstName else p.firstName,
           if p.lastName == "" then r.lastName else p.lastName,
           if p.email == "" then r.email else p.email)
  }

  /** `update_or_create` of one identifier. */
  function Bind(identities: map<Key, Binding>, key: Key, person: nat, source: string): map<Key, Binding> {
    identities[key := Binding(person, source, key in identities && identities[key].verified)]
  }

  function BindAll(identities: map<Key, Binding>, keys: seq<Key>, person: nat, source: string): map<Key, Binding>
    decreases keys
  {
    if keys == [] then identities else BindAll(Bind(identities, keys[0], person, source), keys[1..], person, source)
  }

  function Score(env: Env, persons: seq<Person>, cand: nat, target: string): real
    requires cand < |persons|
  {
    env.similarity(persons[cand].displayName, target)
  }

  predicate TriesFuzzy(r: PersonRecord) {
    r.email != "" && (r.fullName != "" || (r.firstName != "" && r.lastName != ""))
  }

  function TargetName(env: Env, r: PersonRecord): string {
    if r.fullName != "" then r.fullName else Strip(env.space, r.firstName + " " + r.lastName)
  }

  predicate EndsWith(text: string, tail: string) { |tail| <= |text| && text[|text| - |tail|..] == tail }

  /** The part of an address after its first at sign, if it has one. */
  function AfterAt(email: string): string {
    if email == "" then "" else if email[0] == '@' then email[1..] else AfterAt(email[1..])
  }

  /** A person whose address is in the record's domain, in any case, and who has
      a role at the organization if one is given. */
  predicate IsCandidate(env: Env, reg: Registry, r: PersonRecord, org: Option<nat>, p: nat) {
    && p < |reg.persons|
    && EndsWith(env.lower(reg.persons[p].email), "@" + env.lower(AfterAt(r.email)))
    && (org.Some? ==> (p, org.value) in reg.roles)
  }

  /** What the candidate query returns: some candidates, each once, and all of
      them when they are fewer than the limit. */
  ghost predicate CandidateList(env: Env, reg: Registry, r: PersonRecord, org: Option<nat>, cands: seq<nat>) {
    && |cands| <= QUERY_LIMIT
    && (forall k :: 0 <= k < |cands| ==> IsCandidate(env, reg, r, org, cands[k]))
    && (forall j, k :: 0 <= j < k < |cands| ==> cands[j] != cands[k])
    && (|cands| < QUERY_LIMIT ==> forall p: nat :: IsCandidate(env, reg, r, org, p) ==> p in cands)
  }

  predicate Known(persons: seq<Person>, cands: seq<nat>) { forall k :: 0 <= k < |cands| ==> cands[k] < |persons| }

  /** The candidate at b is the earliest with the highest score, and that reaches the threshold. */
  predicate BestAt(env: Env, persons: seq<Person>, cands: seq<nat>, target: string, b: nat)
    requires Known(persons, cands)
  {
    && b < |cands| && Score(env, persons, cands[b], target) >= THRESHOLD
    && (forall k :: 0 <= k < |cands| ==> Score(env, persons, cands[k], target) <= Score(env, persons, cands[b], target))
    && (forall k :: 0 <= k < b ==> Score(env, persons, cands[k], target) < Score(env, persons, cands[b], target))
  }

  predicate NoneReaches(env: Env, persons: seq<Person>, cands: seq<nat>, target: string)
    requires Known(persons, cands)
  {
    forall k :: 0 <= k < |cands| ==> Score(env, persons, cands[k], target) < THRESHOLD
  }

  /** The earliest candidate with the highest score at or above the threshold. */
  ghost predicate IsBest(env: Env, persons: seq<Person>, cands: seq<nat>, target: string, best: Option<nat>) {
    && Known(persons, cands)
    && match best
       case None => NoneReaches(env, persons, cands, target)
       case Some(c) => exists b: nat :: BestAt(env, persons, cands, target, b) && cands[b] == c
  }

  function NewPerson(env: Env, r: PersonRecord): Person {
    var joined := Strip(env.space, r.firstName + " " + r.lastName);
    var name := if r.fullName != "" then r.fullName else if joined != "" then joined else r.email;
    Person(name, r.firstName, r.lastName, r.email)
  }

  /** A resolution step: from reg, with the fuzzy search answering best (when it is reached). */
  function Resolve(env: Env, reg: Registry, r: PersonRecord, org: Option<nat>, best: Option<nat>)
    : (Registry, Resolution)
    requires reg.Valid() && (best.Some? ==> best.value < |reg.persons|)
  {
    var keys := Collect(env, r);
    match FirstHit(reg.identities, keys)
    case Some(key) =>
      FirstHitIsFirst(reg.identities, keys);
      var b := reg.identities[key];
      (reg.(identities := reg.identities[key := b.(verified := b.verified || r.source != "ai_match")],
            persons := reg.persons[b.person := Merged(reg.persons[b.person], r)]),
       Resolution(b.person, IdentityExact, false, 1.0))
    case None =>
      if TriesFuzzy(r) && best.Some? then
        (reg.(persons := reg.persons[best.value := Merged(reg.persons[best.value], r)],
              identities := BindAll(reg.identities, keys, best.value, r.source)),
         Resolution(best.value, NameDomainFuzzy, false, Score(env, reg.persons, best.value, TargetName(env, r))))
      else
        var id := |reg.persons|;
        (Registry(reg.persons + [NewPerson(env, r)],
                  BindAll(reg.identities, keys, id, r.source),
                  if org.Some? then reg.roles + {(id, org.value)} else reg.roles),
         Resolution(id, Manual, true, 0.8))
  }

  lemma {:induction false} FirstHitIsFirst(identities: map<Key, Binding>, keys: seq<Key>)
    ensures match FirstHit(identities, keys)
            case None => forall k :: 0 <= k < |keys| ==> keys[k] !in identities
            case Some(key) =>
              && key in identities
              && (exists k :: 0 <= k < |keys| && keys[k] == key && forall j :: 0 <= j < k ==> keys[j] !in identities)
  {
    if keys != [] && keys[0] !in identities {
      FirstHitIsFirst(identities, keys[1..]);
      if FirstHit(identities, keys).Some? {
        var k :| 0 <= k < |keys[1..]| && keys[1..][k] == FirstHit(identities, keys).value
                 && forall j :: 0 <= j < k ==> keys[1..][j] !in identities;
        assert keys[k + 1] == keys[1..][k];
        assert forall j :: 1 <= j < k + 1 ==> keys[j] == keys[1..][j - 1];
      }
    }
  }

  // ---------------------------------------------------------------- the resolver

  class IdentityResolver {
    var persons: seq<Person>
    var identities: map<Key, Binding>
    var roles: set<(nat, nat)>
    const env: Env

    function Reg(): Registry reads this { Registry(persons, identities, roles) }
    predicate Valid() reads this { Reg().Valid() }

    constructor (env: Env)
      ensures this.env == env && Reg() == Registry([], map[], {}) && Valid()
    {
      this.env := env;
      persons, identities, roles := [], map[], {};
    }

    /** The fuzzy search over the persons the query returns. */
    method FindBest(cands: seq<nat>, target: string) returns (best: Option<nat>)
      requires Known(persons, cands)
      ensures IsBest(env, persons, cands, target, best)
    {
      best := None;
      var bestScore := 0.0;
      ghost var b: nat := 0;
      for k := 0 to |cands|
        invariant if best.None? then NoneReaches(env, persons, cands[..k], target)
                  else BestAt(env, persons, cands[..k], target, b) && cands[b] == best.value
                       && bestScore == Score(env, persons, cands[b], target)
      {
        var score := Score(env, persons, cands[k], target);
        ghost var at := if best.None? then None else Some(b);
        assert cands[..k + 1][..k] == cands[..k];
        BestNext(env, persons, cands[..k + 1], target, at);
        if score >= THRESHOLD && (best.None? || score > bestScore) {
          best := Some(cands[k]);
          bestScore := score;
          b := k;
        }
      }
      assert cands[..|cands|] == cands;
    }

    method UpsertIdentities(person: nat, keys: seq<Key>, source: string)
      modifies this`identities
      ensures identities == BindAll(old(identities), keys, person, source)
    {
      for k := 0 to |keys|
        invariant BindAll(identities, keys[k..], person, source) == BindAll(old(identities), keys, person, source)
      {
        identities := Bind(identities, keys[k], person, source);
        assert keys[k..][1..] == keys[k + 1..];
      }
    }

    method MergeFields(person: nat, r: PersonRecord)
      requires person < |persons|
      modifies this`persons
      ensures persons == old(persons)[person := Merged(old(persons)[person], r)]
    {
      var p := persons[person];
      if p.email == "" && r.email != "" { p := p.(email := r.email); }
      if p.firstName == "" && r.firstName != "" { p := p.(firstName := r.firstName); }
      if p.lastName == "" && r.lastName != "" { p := p.(lastName := r.lastName); }
      if p.displayName == "" && r.fullName != "" { p := p.(displayName := r.fullName); }
      persons := persons[person := p];
    }

    /** cands: what the candidate query returns. */
    method ResolvePerson(r: PersonRecord, org: Option<nat>, cands: seq<nat>)
      returns (res: Resolution, ghost best: Option<nat>)
      requires Valid() && CandidateList(env, Reg(), r, org, cands)
      modifies this
      ensures IsBest(env, old(persons), cands, TargetName(env, r), best) && (best.Some? ==> best.value < |old(persons)|)
      ensures (Reg(), res) == Resolve(env, old(Reg()), r, org, best)
    {
      var keys := Collect(env, r);
      best := BestExists(env, persons, cands, TargetName(env, r));
      var k := 0;
      while k < |keys|
        invariant k <= |keys| && Reg() == old(Reg())
        invariant FirstHit(identities, keys) == FirstHit(identities, keys[k..])
      {
        assert keys[k..][0] == keys[k] && keys[k..][1..] == keys[k + 1..];
        if keys[k] in identities {
          var b := identities[keys[k]];
          identities := identities[keys[k] := b.(verified := b.verified || r.source != "ai_match")];
          MergeFields(b.person, r);
          return Resolution(b.person, IdentityExact, false, 1.0), best;
        }
        k := k + 1;
      }
      if TriesFuzzy(r) {
        var found := FindBest(cands, TargetName(env, r));
        BestUnique(env, persons, cands, TargetName(env, r), found, best);
        if found.Some? {
          var score := Score(env, persons, found.value, TargetName(env, r));
          MergeFields(found.value, r);
          UpsertIdentities(found.value, keys, r.source);
          return Resolution(found.value, NameDomainFuzzy, false, score), best;
        }
      }
      var id := |persons|;
      persons := persons + [NewPerson(env, r)];
      UpsertIdentities(id, keys, r.source);
      if org.Some? {
        roles := roles + {(id, org.value)};
      }
      res := Resolution(id, Manual, true, 0.8);
    }
  }

  lemma BestUnique(env: Env, persons: seq<Person>, cands: seq<nat>, target: string, a: Option<nat>, b: Option<nat>)
    requires IsBest(env, persons, cands, target, a) && IsBest(env, persons, cands, target, b)
    ensures a == b
  {
    if a.Some? && b.Some? {
      var i: nat :| BestAt(env, persons, cands, target, i) && cands[i] == a.value;
      var j: nat :| BestAt(env, persons, cands, target, j) && cands[j] == b.value;
      assert !(i < j) && !(j < i);
    }
  }

  /** One more candidate: it is the best one, or what was best before still is. */
  lemma BestNext(env: Env, persons: seq<Person>, cands: seq<nat>, target: string, at: Option<nat>)
    requires Known(persons, cands) && cands != []
    requires var init := cands[..|cands| - 1];
             if at.None? then NoneReaches(env, persons, init, target) else BestAt(env, persons, init, target, at.value)
    ensures var last := |cands| - 1;
            var score := Score(env, persons, cands[last], target);
            if score >= THRESHOLD && (at.None? || score > Score(env, persons, cands[at.value], target))
            then BestAt(env, persons, cands, target, last)
            else if at.None? then NoneReaches(env, persons, cands, target)
            else BestAt(env, persons, cands, target, at.value)
  {
    var init, last := cands[..|cands| - 1], |cands| - 1;
    assert forall k :: 0 <= k < last ==> init[k] == cands[k];
  }

  /** There is a best candidate, at some index, or none reaches the threshold. */
  lemma {:induction false} BestIndex(env: Env, persons: seq<Person>, cands: seq<nat>, target: string)
    returns (at: Option<nat>)
    requires Known(persons, cands)
    ensures if at.None? then NoneReaches(env, persons, cands, target) else BestAt(env, persons, cands, target, at.value)
  {
    at := None;
    if cands != [] {
      at := BestIndex(env, persons, cands[..|cands| - 1], target);
      BestNext(env, persons, cands, target, at);
      var score := Score(env, persons, cands[|cands| - 1], target);
      if score >= THRESHOLD && (at.None? || score > Score(env, persons, cands[at.value], target)) {
        at := Some(|cands| - 1);
      }
    }
  }

  lemma BestExists(env: Env, persons: seq<Person>, cands: seq<nat>, target: string) returns (best: Option<nat>)
    requires Known(persons, cands)
    ensures IsBest(env, persons, cands, target, best) && (best.Some? ==> best.value < |persons|)
  {
    var at := BestIndex(env, persons, cands, target);
    best := if at.None? then None else Some(cands[at.value]);
  }

  /** A fuzzy match is a candidate whose name reaches the threshold; unless the query was cut off, a
      record that no identifier finds is matched by name if and only if there is such a candidate. */
  lemma FuzzyMatchIff(env: Env, reg: Registry, r: PersonRecord, org: Option<nat>, cands: seq<nat>, best: Option<nat>)
    requires reg.Valid() && CandidateList(env, reg, r, org, cands)
    requires IsBest(env, reg.persons, cands, TargetName(env, r), best) && (best.Some? ==> best.value < |reg.persons|)
    ensures var res := Resolve(env, reg, r, org, best).1;
            && (res.matchedBy == NameDomainFuzzy ==>
                  && Reaches(env, reg, r, org, res.person)
                  && r.email != "" && (r.fullName != "" || (r.firstName != "" && r.lastName != "")))
            && (|cands| < 50 && FirstHit(reg.identities, Collect(env, r)).None?
                && r.email != "" && (r.fullName != "" || (r.firstName != "" && r.lastName != "")) ==>
                  (res.matchedBy == NameDomainFuzzy <==> exists p: nat :: Reaches(env, reg, r, org, p)))
  {
    if best.Some? {
      var b: nat :| BestAt(env, reg.persons, cands, TargetName(env, r), b) && cands[b] == best.value;
      assert Reaches(env, reg, r, org, best.value);
    }
  }

  predicate Reaches(env: Env, reg: Registry, r: PersonRecord, org: Option<nat>, p: nat) {
    var name := if r.fullName != "" then r.fullName else Strip(env.space, r.firstName + " " + r.lastName);
    IsCandidate(env, reg, r, org, p) && env.similarity(reg.persons[p].displayName, name) >= 0.85
  }

  /** The domain of an address is what follows its first at sign. */
  lemma {:induction false} DomainIs(email: string) returns (local: string)
    ensures '@' !in local
    ensures if '@' in email then email == local + "@" + AfterAt(email) else AfterAt(email) == ""
  {
    local := "";
    if email != "" && email[0] != '@' {
      var rest := DomainIs(email[1..]);
      local := [email[0]] + rest;
      assert email == [email[0]] + email[1..];
    } else if email != "" {
      assert email == "" + "@" + email[1..];
    }
  }

  // ---------------------------------------------------------------- which identifiers a record yields

  function Bit(b: bool): nat { if b then 1 else 0 }

  /** The identifiers in the order they are tried: the lower-cased address, the Slack id, the phone
      number, the id in the source system, each if there is one, and then the extra ones. */
  lemma IdentifiersAre(env: Env, r: PersonRecord)
    ensures var keys := Collect(env, r);
            var slack := Bit(r.email != "");
            var phone := slack + Bit(r.slackId != "");
            var inSource := phone + Bit(r.phone != "");
            var extra := inSource + Bit(r.personIdInSource != "");
            && |keys| == extra + |r.extra| && keys[extra..] == r.extra
            && (r.email != "" ==> keys[0] == Key("email", env.lower(r.email)))
            && (r.slackId != "" ==> keys[slack] == Key("slack_id", r.slackId))
            && (r.phone != "" ==> keys[phone] == Key("phone", r.phone))
            && (r.personIdInSource != "" ==> keys[inSource] == Key(IdTypeForSource(r.source), r.personIdInSource))
  {
  }

  /** The type of an id in its source system. */
  lemma SourceTypesAre(source: string)
    ensures IdTypeForSource("pipedrive") == "pipedrive_person_id" && IdTypeForSource("fapi") == "fapi_customer_id"
    ensures IdTypeForSource("br") == "br_user_id" && IdTypeForSource("slack") == "slack_id"
    ensures IdTypeForSource("google") == "google_id"
    ensures source !in {"pipedrive", "fapi", "br", "slack", "google"} ==> IdTypeForSource(source) == "email"
  {
  }

  // ---------------------------------------------------------------- what one call keeps

  lemma {:induction false} BindAllBinds(identities: map<Key, Binding>, keys: seq<Key>, person: nat, source: string)
    ensures var after := BindAll(identities, keys, person, source);
            && (forall k :: 0 <= k < |keys| ==> keys[k] in after && after[keys[k]].person == person)
            && (forall key :: key !in keys ==>
              (key in after <==> key in identities) && (key in after ==> after[key] == identities[key]))
    decreases keys
  {
    if keys != [] {
      BindAllBinds(Bind(identities, keys[0], person, source), keys[1..], person, source);
      assert keys == [keys[0]] + keys[1..];
    }
  }

  /** A field that is filled stays as it is. */
  predicate FieldKept(before: string, after: string) { before != "" ==> after == before }

  predicate PersonKept(p: Person, p': Person) {
    FieldKept(p.displayName, p'.displayName) && FieldKept(p.firstName, p'.firstName)
    && FieldKept(p.lastName, p'.lastName) && FieldKept(p.email, p'.email)
  }

  /** From reg to reg': no identifier moves to another person, no person disappears, no filled field changes. */
  ghost predicate Kept(reg: Registry, reg': Registry) {
    && (forall key :: key in reg.identities ==>
          key in reg'.identities && reg'.identities[key].person == reg.identities[key].person
          && (reg.identities[key].verified ==> reg'.identities[key].verified))
    && |reg.persons| <= |reg'.persons|
    && (forall p :: 0 <= p < |reg.persons| ==> PersonKept(reg.persons[p], reg'.persons[p]))
    && reg.roles <= reg'.roles
  }

  lemma KeptTransitive(a: Registry, b: Registry, c: Registry)
    requires Kept(a, b) && Kept(b, c)
    ensures Kept(a, c)
  {
    forall p | 0 <= p < |a.persons|
      ensures PersonKept(a.persons[p], c.persons[p])
    {
      assert PersonKept(a.persons[p], b.persons[p]) && PersonKept(b.persons[p], c.persons[p]);
    }
  }

  /** Binding identifiers that are all new leaves the known ones alone. */
  lemma NewKeysBound(reg: Registry, reg': Registry, keys: seq<Key>, person: nat, source: string)
    requires reg.Valid() && FirstHit(reg.identities, keys).None?
    requires person < |reg'.persons| && |reg.persons| <= |reg'.persons|
    requires reg'.identities == BindAll(reg.identities, keys, person, source)
    ensures reg'.Valid()
    ensures forall key :: key in reg.identities ==>
            key in reg'.identities && reg'.identities[key] == reg.identities[key]
  {
    FirstHitIsFirst(reg.identities, keys);
    BindAllBinds(reg.identities, keys, person, source);
    forall key | key in reg'.identities
      ensures reg'.identities[key].person < |reg'.persons|
    {
      if key in keys { assert reg'.identities[key].person == person; }
    }
  }

  /** One call moves no identifier, overwrites no filled field and creates at most one person, the one it returns. */
  lemma ResolveKeeps(env: Env, reg: Registry, r: PersonRecord, org: Option<nat>, best: Option<nat>)
    requires reg.Valid() && (best.Some? ==> best.value < |reg.persons|)
    ensures var (reg', res) := Resolve(env, reg, r, org, best);
            && reg'.Valid() && Kept(reg, reg') && res.person < |reg'.persons|
            && |reg'.persons| == |reg.persons| + (if res.created then 1 else 0)
            && (res.created <==> res.person == |reg.persons|)
  {
    var keys := Collect(env, r);
    var (reg', res) := Resolve(env, reg, r, org, best);
    if FirstHit(reg.identities, keys).None? { NewKeysBound(reg, reg', keys, res.person, r.source); }
  }

  /** What a call establishes: every identifier of a record it created or matched by name is bound to the person. */
  lemma ResolveBinds(env: Env, reg: Registry, r: PersonRecord, org: Option<nat>, best: Option<nat>)
    requires reg.Valid() && (best.Some? ==> best.value < |reg.persons|)
    ensures var (reg', res) := Resolve(env, reg, r, org, best);
            var keys := Collect(env, r);
            && (res.matchedBy != IdentityExact ==> Owns(reg', keys, res.person))
            && (keys != [] ==> FirstHit(reg'.identities, keys).Some?
                               && reg'.identities[FirstHit(reg'.identities, keys).value].person == res.person)
  {
    var keys := Collect(env, r);
    var (reg', res) := Resolve(env, reg, r, org, best);
    FirstHitIsFirst(reg.identities, keys);
    FirstHitIsFirst(reg'.identities, keys);
    BindAllBinds(reg.identities, keys, res.person, r.source);
    if res.matchedBy == IdentityExact {
      SameFirstHit(reg.identities, reg'.identities, keys);
    }
  }

  /** Whatever name or address the record offers, the person has one. */
  predicate Supplied(p: Person, r: PersonRecord) {
    && (r.fullName != "" ==> p.displayName != "") && (r.firstName != "" ==> p.firstName != "")
    && (r.lastName != "" ==> p.lastName != "") && (r.email != "" ==> p.email != "")
  }

  /** The returned person has what the record offers, the others are untouched, and a record with an
      identifier resolved again at once changes nothing more about persons and roles. */
  lemma ResolveFills(env: Env, reg: Registry, r: PersonRecord, org: Option<nat>, best: Option<nat>, best': Option<nat>)
    requires reg.Valid() && (best.Some? ==> best.value < |reg.persons|)
    requires var reg' := Resolve(env, reg, r, org, best).0; best'.Some? ==> best'.value < |reg'.persons|
    ensures var (reg', res) := Resolve(env, reg, r, org, best);
            && reg'.Valid() && res.person < |reg'.persons| && Supplied(reg'.persons[res.person], r)
            && (forall p :: 0 <= p < |reg.persons| && p != res.person ==>
              p < |reg'.persons| && reg'.persons[p] == reg.persons[p])
            && (Collect(env, r) != [] ==>
                  var reg'' := Resolve(env, reg', r, org, best').0;
                  reg''.persons == reg'.persons && reg''.roles == reg'.roles)
  {
    var (reg', res) := Resolve(env, reg, r, org, best);
    ResolveKeeps(env, reg, r, org, best);
    ResolveBinds(env, reg, r, org, best);
    assert Merged(reg'.persons[res.person], r) == reg'.persons[res.person];
  }

  lemma {:induction false} BindAllIs(identities: map<Key, Binding>, keys: seq<Key>, person: nat, source: string)
    ensures var after := BindAll(identities, keys, person, source);
            && after.Keys == identities.Keys + (set k | 0 <= k < |keys| :: keys[k])
            && forall key :: key in after ==>
                 after[key] == if key in keys
                               then Binding(person, source, key in identities && identities[key].verified)
                               else identities[key]
    decreases keys
  {
    if keys != [] {
      BindAllIs(Bind(identities, keys[0], person, source), keys[1..], person, source);
      assert keys == [keys[0]] + keys[1..];
    }
  }

  /** The person after a call: an existing one keeps what is filled and takes the rest from the record; a
      new one has the record's fields, and for a name the full one, or first and last, or the address. */
  lemma ResolvedFields(env: Env, reg: Registry, r: PersonRecord, org: Option<nat>, best: Option<nat>)
    requires reg.Valid() && (best.Some? ==> best.value < |reg.persons|)
    ensures var (reg', res) := Resolve(env, reg, r, org, best);
            && res.person < |reg'.persons|
            && var p' := reg'.persons[res.person];
               if res.created then
                 var joined := Strip(env.space, r.firstName + " " + r.lastName);
                 && p'.firstName == r.firstName && p'.lastName == r.lastName && p'.email == r.email
                 && p'.displayName ==
                    (if r.fullName != "" then r.fullName else if joined != "" then joined else r.email)
                 && reg'.roles == (if org.Some? then reg.roles + {(res.person, org.value)} else reg.roles)
               else
                 && res.person < |reg.persons| && reg'.roles == reg.roles
                 && var p := reg.persons[res.person];
                    && p'.firstName == (if p.firstName != "" then p.firstName else r.firstName)
                    && p'.lastName == (if p.lastName != "" then p.lastName else r.lastName)
                    && p'.email == (if p.email != "" then p.email else r.email)
                    && p'.displayName == (if p.displayName != "" then p.displayName else r.fullName)
  {
    FirstHitIsFirst(reg.identities, Collect(env, r));
  }

  /** The identifiers after a call.  An exact match touches the record's first known identifier, which is
      verified from then on unless the record comes from AI matching.  Otherwise all of the record's
      identifiers are new: they are bound to the person, by the record's source and unverified. */
  lemma ResolvedBindings(env: Env, reg: Registry, r: PersonRecord, org: Option<nat>, best: Option<nat>, key: Key)
    requires reg.Valid() && (best.Some? ==> best.value < |reg.persons|)
    ensures var (reg', res) := Resolve(env, reg, r, org, best);
            var keys, hit := Collect(env, r), FirstHit(reg.identities, Collect(env, r));
            if res.matchedBy == IdentityExact then
              && hit.Some? && res.confidence == 1.0 && !res.created && reg'.identities.Keys == reg.identities.Keys
              && res.person == reg.identities[hit.value].person
              && (key in reg.identities ==> var was, now := reg.identities[key], reg'.identities[key];
                    && now.person == was.person && now.source == was.source
                    && now.verified == (was.verified || (key == hit.value && r.source != "ai_match")))
            else
              && hit.None? && res.created == (res.matchedBy == Manual) && (res.created ==> res.confidence == 0.8)
              && (key in keys ==>
                    key !in reg.identities && key in reg'.identities
                    && reg'.identities[key] == Binding(res.person, r.source, false))
              && (key !in keys ==> (key in reg'.identities <==> key in reg.identities)
                                   && (key in reg.identities ==> reg'.identities[key] == reg.identities[key]))
  {
    var keys := Collect(env, r);
    var (reg', res) := Resolve(env, reg, r, org, best);
    FirstHitIsFirst(reg.identities, keys);
    if res.matchedBy != IdentityExact {
      BindAllIs(reg.identities, keys, res.person, r.source);
    }
  }

  ghost predicate Owns(reg: Registry, keys: seq<Key>, person: nat) {
    forall k :: 0 <= k < |keys| ==> keys[k] in reg.identities && reg.identities[keys[k]].person == person
  }

  lemma {:induction false} SameFirstHit(a: map<Key, Binding>, b: map<Key, Binding>, keys: seq<Key>)
    requires a.Keys == b.Keys
    ensures FirstHit(a, keys) == FirstHit(b, keys)
  {
    if keys != [] {
      assert keys[0] in a.Keys <==> keys[0] in b.Keys;
      SameFirstHit(a, b, keys[1..]);
    }
  }

  /** Resolving the same record again at once returns the same person, without creating one, exactly
      when the record carries an identifier. */
  lemma ResolvedAgain(env: Env, reg: Registry, r: PersonRecord, org: Option<nat>, best: Option<nat>, best': Option<nat>)
    requires reg.Valid() && (best.Some? ==> best.value < |reg.persons|)
    requires var reg' := Resolve(env, reg, r, org, best).0; best'.Some? ==> best'.value < |reg'.persons|
    ensures var (reg', res) := Resolve(env, reg, r, org, best);
            reg'.Valid()
            && var res' := Resolve(env, reg', r, org, best').1;
               (res'.person == res.person <==> Collect(env, r) != []) && (res'.created <==> Collect(env, r) == [])
  {
    ResolveKeeps(env, reg, r, org, best);
    ResolveBinds(env, reg, r, org, best);
    ResolveKeeps(env, Resolve(env, reg, r, org, best).0, r, org, best');
    if Collect(env, r) == [] {
      assert r.email == "";
    }
  }

  // ---------------------------------------------------------------- runs of calls

  datatype Call = Call(r: PersonRecord, org: Option<nat>, best: Option<nat>)

  /** Each call's fuzzy search answers with an existing person, or none. */
  ghost predicate Possible(env: Env, reg: Registry, calls: seq<Call>)
    decreases calls
  {
    reg.Valid()
    && (calls == [] || ((calls[0].best.Some? ==> calls[0].best.value < |reg.persons|)
                        && Possible(env, Resolve(env, reg, calls[0].r, calls[0].org, calls[0].best).0, calls[1..])))
  }

  function After(env: Env, reg: Registry, calls: seq<Call>): Registry
    requires Possible(env, reg, calls)
    decreases calls
  {
    if calls == [] then reg
    else After(env, Resolve(env, reg, calls[0].r, calls[0].org, calls[0].best).0, calls[1..])
  }

  /** Over any run of calls: no binding moves, no filled field changes, at most one person a call appears. */
  lemma {:induction false} RunKeeps(env: Env, reg: Registry, calls: seq<Call>)
    requires Possible(env, reg, calls)
    ensures var reg' := After(env, reg, calls);
            reg'.Valid() && Kept(reg, reg') && |reg'.persons| <= |reg.persons| + |calls|
    decreases calls
  {
    if calls != [] {
      var next := Resolve(env, reg, calls[0].r, calls[0].org, calls[0].best).0;
      ResolveKeeps(env, reg, calls[0].r, calls[0].org, calls[0].best);
      RunKeeps(env, next, calls[1..]);
      KeptTransitive(reg, next, After(env, reg, calls));
    }
  }

  // ---------------------------------------------------------------- which resolutions are stable

  /** Whatever calls come later, the record resolves to the same person again. */
  ghost predicate Stable(env: Env, reg: Registry, r: PersonRecord, org: Option<nat>, best: Option<nat>)
    requires reg.Valid() && (best.Some? ==> best.value < |reg.persons|)
  {
    var (reg', res) := Resolve(env, reg, r, org, best);
    forall calls: seq<Call>, best': Option<nat> ::
      Possible(env, reg', calls) && Names(After(env, reg', calls), best') ==>
        Again(env, reg', calls, r, org, best') == res.person
  }

  /** The fuzzy search answers with an existing person, or none, and the registry is sound. */
  predicate Names(reg: Registry, best: Option<nat>) {
    reg.Valid() && (best.Some? ==> best.value < |reg.persons|)
  }

  /** The person the record resolves to after the calls. */
  function Again(env: Env, reg: Registry, calls: seq<Call>, r: PersonRecord, org: Option<nat>, best: Option<nat>): nat
    requires Possible(env, reg, calls) && Names(After(env, reg, calls), best)
  {
    Resolve(env, After(env, reg, calls), r, org, best).1.person
  }

  /** A binding of the record's first identifier decides every later call. */
  lemma FirstKeyDecides(env: Env, reg: Registry, r: PersonRecord, org: Option<nat>, best: Option<nat>)
    requires Names(reg, best) && Collect(env, r) != [] && Collect(env, r)[0] in reg.identities
    ensures Resolve(env, reg, r, org, best).1.person == reg.identities[Collect(env, r)[0]].person
  {
  }

  /** The call leaves the first identifier bound to the returned person when it was bound before, or none was. */
  lemma FirstKeyBound(env: Env, reg: Registry, r: PersonRecord, org: Option<nat>, best: Option<nat>)
    requires Names(reg, best) && Collect(env, r) != []
    requires FirstHit(reg.identities, Collect(env, r)).None? || Collect(env, r)[0] in reg.identities
    ensures var (reg', res) := Resolve(env, reg, r, org, best);
            Collect(env, r)[0] in reg'.identities && reg'.identities[Collect(env, r)[0]].person == res.person
  {
    ResolveBinds(env, reg, r, org, best);
    if Collect(env, r)[0] in reg.identities { FirstKeyDecides(env, reg, r, org, best); }
  }

  lemma BoundIsStable(env: Env, reg: Registry, r: PersonRecord, org: Option<nat>, best: Option<nat>)
    requires Names(reg, best) && Collect(env, r) != []
    requires FirstHit(reg.identities, Collect(env, r)).None? || Collect(env, r)[0] in reg.identities
    ensures Stable(env, reg, r, org, best)
  {
    var (reg', res) := Resolve(env, reg, r, org, best);
    FirstKeyBound(env, reg, r, org, best);
    forall calls: seq<Call>, best': Option<nat> | Possible(env, reg', calls) && Names(After(env, reg', calls), best')
      ensures Again(env, reg', calls, r, org, best') == res.person
    {
      RunKeeps(env, reg', calls);
      FirstKeyDecides(env, After(env, reg', calls), r, org, best');
    }
  }

  /** A record that carries one identifier and nothing else. */
  function Bare(key: Key): PersonRecord { PersonRecord("manual", "", "", "", "", "", "", "", [key]) }

  /** A bare record with an unknown identifier makes a new person who owns it. */
  lemma BareBinds(env: Env, reg: Registry, key: Key)
    requires reg.Valid() && key !in reg.identities
    ensures var reg' := Resolve(env, reg, Bare(key), None, None).0;
            reg'.Valid() && key in reg'.identities && reg'.identities[key].person == |reg.persons|
  {
    assert Collect(env, Bare(key)) == [key];
    ResolveKeeps(env, reg, Bare(key), None, None);
    ResolveBinds(env, reg, Bare(key), None, None);
    assert [key][0] == key;
    assert FirstHit(reg.identities, [key]) == None by { FirstHitIsFirst(reg.identities, [key]); }
  }

  lemma ExactMatchAddsNone(env: Env, reg: Registry, r: PersonRecord, org: Option<nat>, best: Option<nat>)
    requires Names(reg, best) && FirstHit(reg.identities, Collect(env, r)).Some?
    ensures var (reg', res) := Resolve(env, reg, r, org, best);
            && reg'.Valid() && res.person < |reg'.persons|
            && forall key :: key in reg'.identities <==> key in reg.identities
  {
    ResolveKeeps(env, reg, r, org, best);
  }

  lemma OneCall(env: Env, reg: Registry, call: Call)
    requires Names(reg, call.best) && Resolve(env, reg, call.r, call.org, call.best).0.Valid()
    ensures Possible(env, reg, [call]) && After(env, reg, [call]) == Resolve(env, reg, call.r, call.org, call.best).0
  {
    var next := Resolve(env, reg, call.r, call.org, call.best).0;
    assert [call][1..] == [] && Possible(env, next, []) && After(env, next, []) == next;
  }

  /** A call that binds the record's first identifier to a new person decides the next call. */
  lemma BareCallTakes(env: Env, reg: Registry, r: PersonRecord, org: Option<nat>)
    requires reg.Valid() && Collect(env, r) != [] && Collect(env, r)[0] !in reg.identities
    ensures var calls := [Call(Bare(Collect(env, r)[0]), None, None)];
            && Possible(env, reg, calls) && Names(After(env, reg, calls), None)
            && Again(env, reg, calls, r, org, None) == |reg.persons|
  {
    var key := Collect(env, r)[0];
    BareBinds(env, reg, key);
    OneCall(env, reg, Call(Bare(key), None, None));
    FirstKeyDecides(env, Resolve(env, reg, Bare(key), None, None).0, r, org, None);
  }

  /** After an exact match through a later identifier, one call that binds the first identifier moves the record. */
  lemma UnboundMoves(env: Env, reg: Registry, r: PersonRecord, org: Option<nat>, best: Option<nat>)
    requires Names(reg, best) && Collect(env, r) != []
    requires FirstHit(reg.identities, Collect(env, r)).Some? && Collect(env, r)[0] !in reg.identities
    ensures !Stable(env, reg, r, org, best)
  {
    var key := Collect(env, r)[0];
    var (reg', res) := Resolve(env, reg, r, org, best);
    ExactMatchAddsNone(env, reg, r, org, best);
    BareCallTakes(env, reg', r, org);
    assert |reg'.persons| != res.person;
  }

  /** A record with an identifier resolves to the same person after every run of later calls if and
      only if none of its identifiers was known, or its first one was. */
  lemma StableIff(env: Env, reg: Registry, r: PersonRecord, org: Option<nat>, best: Option<nat>)
    requires Names(reg, best) && Collect(env, r) != []
    ensures Stable(env, reg, r, org, best) <==>
            FirstHit(reg.identities, Collect(env, r)).None? || Collect(env, r)[0] in reg.identities
  {
    if FirstHit(reg.identities, Collect(env, r)).None? || Collect(env, r)[0] in reg.identities {
      BoundIsStable(env, reg, r, org, best);
    } else {
      UnboundMoves(env, reg, r, org, best);
    }
  }

  /** A record resolved by creation or by name returns the same person, by an exact match, after any later calls. */
  lemma ResolutionIsStable(env: Env, reg: Registry, r: PersonRecord, org: Option<nat>, best: Option<nat>,
                           calls: seq<Call>, best': Option<nat>)
    requires Names(reg, best) && Collect(env, r) != []
    requires Resolve(env, reg, r, org, best).1.matchedBy != IdentityExact
    requires Possible(env, Resolve(env, reg, r, org, best).0, calls)
    requires Names(After(env, Resolve(env, reg, r, org, best).0, calls), best')
    ensures var (reg', res) := Resolve(env, reg, r, org, best);
            Resolve(env, After(env, reg', calls), r, org, best').1 == Resolution(res.person, IdentityExact, false, 1.0)
  {
    var (reg', res) := Resolve(env, reg, r, org, best);
    BoundIsStable(env, reg, r, org, best);
    assert Again(env, reg', calls, r, org, best') == res.person;
    FirstKeyBound(env, reg, r, org, best);
    RunKeeps(env, reg', calls);
  }

  // ---------------------------------------------------------------- an exact match is not stable

  const CHAT := PersonRecord("slack", "", "", "", "", "", "", "U1", [])
  const BOTH := PersonRecord("slack", "a@b.cz", "", "", "", "", "", "U1", [])
  const MAIL := PersonRecord("google", "a@b.cz", "", "", "", "", "", "", [])

  /** A record matched through its second identifier binds nothing; once its first one is bound to
      somebody else, the same record resolves to that other person. */
  lemma ExactMatchMoves(env: Env)
    ensures var reg1 := Resolve(env, Registry([], map[], {}), CHAT, None, None).0;
            && reg1.Valid()
            && var (reg2, first) := Resolve(env, reg1, BOTH, None, None);
               && reg2.Valid()
               && var reg3 := Resolve(env, reg2, MAIL, None, None).0;
                  && reg3.Valid()
                  && first == Resolution(0, IdentityExact, false, 1.0)
                  && Resolve(env, reg3, BOTH, None, None).1 == Resolution(1, IdentityExact, false, 1.0)
  {
    var chat, mail := Key("slack_id", "U1"), Key("email", env.lower("a@b.cz"));
    assert Collect(env, CHAT) == [chat];
    assert Collect(env, BOTH) == [mail, chat];
    assert Collect(env, MAIL) == [mail];
    var reg0 := Registry([], map[], {});
    var reg1 := Resolve(env, reg0, CHAT, None, None).0;
    assert [chat][1..] == [] && [mail][1..] == [] && [mail, chat][1..] == [chat];
    assert FirstHit(reg0.identities, [chat]) == None;
    BindAllBinds(reg0.identities, [chat], 0, CHAT.source);
    assert mail !in [chat] && reg1.identities == BindAll(reg0.identities, [chat], 0, CHAT.source);
    assert chat in reg1.identities && mail !in reg1.identities && reg1.identities[chat].person == 0;
    ResolveKeeps(env, reg0, CHAT, None, None);
    assert FirstHit(reg1.identities, [mail, chat]) == Some(chat);
    var reg2 := Resolve(env, reg1, BOTH, None, None).0;
    ResolveKeeps(env, reg1, BOTH, None, None);
    assert mail !in reg2.identities && FirstHit(reg2.identities, [mail]) == None && |reg2.persons| == 1;
    var reg3 := Resolve(env, reg2, MAIL, None, None).0;
    ResolveKeeps(env, reg2, MAIL, None, None);
    BindAllBinds(reg2.identities, [mail], 1, MAIL.source);
    assert [mail][0] in reg3.identities && reg3.identities[mail].person == 1;
    assert FirstHit(reg3.identities, [mail, chat]) == Some(mail);
  }
}