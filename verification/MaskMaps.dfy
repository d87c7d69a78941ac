/**
 What `mask_pii` does to the bindings of a map handed in by the caller, and a text that spells a token.
 */
module MaskMaps {
  import opened Options
  import opened PiiPatterns
  import opened Guardrails

  // ---------------------------------------------------------------- a map handed in by the caller

  predicate TokensDiffer(entries: seq<Entry>) {
    forall k, l :: 0 <= k < l < |entries| ==> entries[k].token != entries[l].token
  }

  predicate HasToken(entries: seq<Entry>, token: string) { exists k :: 0 <= k < |entries| && entries[k].token == token }

  /** The token is issued between the two states. */
  ghost predicate IssuedBetween(st: MaskState, st': MaskState, token: string) {
    exists kind: Kind, idx: nat :: st.Count(kind) <= idx < st'.Count(kind) && token == Token(kind, idx)
  }

  /** From st to st' a binding goes lost exactly when its token is issued; no token disappears. */
  ghost predicate Progress(st: MaskState, st': MaskState) {
    && TokensDiffer(st'.entries)
    && (forall kind: Kind :: st.Count(kind) <= st'.Count(kind))
    && (forall e :: e in st.entries ==> HasToken(st'.entries, e.token))
    && (forall e :: e in st.entries ==> (e in st'.entries <==> !IssuedBetween(st, st', e.token)))
  }

  lemma TokenInTail(head: Entry, rest: seq<Entry>, token: string)
    requires HasToken(rest, token)
    ensures HasToken([head] + rest, token)
  {
    var k :| 0 <= k < |rest| && rest[k].token == token;
    assert ([head] + rest)[k + 1] == rest[k];
  }

  lemma {:induction false} PutTokens(entries: seq<Entry>, token: string, value: string)
    ensures HasToken(Put(entries, token, value), token)
    ensures forall k :: 0 <= k < |entries| ==> HasToken(Put(entries, token, value), entries[k].token)
  {
    var after := Put(entries, token, value);
    if entries == [] || entries[0].token == token {
      assert after[0].token == token;
      forall k | 0 <= k < |entries|
        ensures HasToken(after, entries[k].token)
      {
        assert after[k].token == entries[k].token;
      }
    } else {
      var rest := Put(entries[1..], token, value);
      PutTokens(entries[1..], token, value);
      TokenInTail(entries[0], rest, token);
      forall k | 0 <= k < |entries|
        ensures HasToken(after, entries[k].token)
      {
        if k == 0 {
          assert after[0] == entries[0];
        } else {
          assert entries[1..][k - 1] == entries[k];
          TokenInTail(entries[0], rest, entries[k].token);
        }
      }
    }
  }

  lemma {:induction false} PutKeepsOthers(entries: seq<Entry>, token: string, value: string)
    requires TokensDiffer(entries)
    ensures var after := Put(entries, token, value);
            && TokensDiffer(after)
            && (forall e :: e in after <==> e == Entry(token, value) || (e in entries && e.token != token))
  {
    if entries != [] && entries[0].token != token {
      var rest := Put(entries[1..], token, value);
      PutKeepsOthers(entries[1..], token, value);
      forall l | 0 <= l < |rest|
        ensures rest[l].token != entries[0].token
      {
        assert rest[l] in rest;
      }
      assert entries == [entries[0]] + entries[1..];
    }
  }

  lemma TokensStay(entries: seq<Entry>, entries': seq<Entry>)
    requires forall k :: 0 <= k < |entries| ==> HasToken(entries', entries[k].token)
    ensures forall e :: e in entries ==> HasToken(entries', e.token)
  {
  }

  lemma OneIssued(kind: Kind, st: MaskState, st': MaskState)
    requires st'.counters == st.counters[kind := st.Count(kind) + 1]
    ensures forall token :: IssuedBetween(st, st', token) <==> token == Token(kind, st.Count(kind))
  {
    assert st.Count(kind) <= st.Count(kind) < st'.Count(kind);
    assert forall kd: Kind :: kd != kind ==> st'.Count(kd) == st.Count(kd);
  }

  lemma CallbackProgress(kind: Kind, value: string, st: MaskState)
    requires TokensDiffer(st.entries)
    ensures Progress(st, Callback(kind, value, st).1)
  {
    var st' := Callback(kind, value, st).1;
    FindTokenFinds(st.entries, value);
    if FindToken(st.entries, value).None? {
      var token := Token(kind, st.Count(kind));
      PutKeepsOthers(st.entries, token, value);
      PutTokens(st.entries, token, value);
      TokensStay(st.entries, st'.entries);
      OneIssued(kind, st, st');
    } else {
      assert forall e :: e in st.entries ==> HasToken(st.entries, e.token);
    }
  }

  /** A callback keeps every binding of the map exactly when its value is already mapped or the
      token it is about to issue is not yet taken: counters start at zero even when the map does not. */
  lemma CallbackOverwrites(kind: Kind, value: string, st: MaskState)
    requires TokensDiffer(st.entries)
    ensures (forall e :: e in st.entries ==> e in Callback(kind, value, st).1.entries)
            <==> (FindToken(st.entries, value).Some?
                  || forall e :: e in st.entries ==> e.token != Token(kind, st.Count(kind)))
  {
    FindTokenFinds(st.entries, value);
    if FindToken(st.entries, value).None? { PutKeepsOthers(st.entries, Token(kind, st.Count(kind)), value); }
  }

  lemma ProgressTwice(a: MaskState, b: MaskState, c: MaskState)
    requires TokensDiffer(a.entries) && Progress(a, b) && Progress(b, c)
    ensures Progress(a, c)
  {
    forall e | e in a.entries
      ensures HasToken(c.entries, e.token) && (e in c.entries <==> !IssuedBetween(a, c, e.token))
    {
      BetweenSplits(a, b, c, e.token);
      var k :| 0 <= k < |b.entries| && b.entries[k].token == e.token;
      assert b.entries[k] in b.entries;
      if e !in b.entries {
        IssuedOnce(a, b, c, e.token);
        assert b.entries[k] in c.entries;
        OneOfToken(c.entries, b.entries[k], e);
      }
    }
  }

  lemma OneOfToken(entries: seq<Entry>, e: Entry, e': Entry)
    requires TokensDiffer(entries) && e in entries && e' != e && e'.token == e.token
    ensures e' !in entries
  {
  }

  lemma BetweenSplits(a: MaskState, b: MaskState, c: MaskState, token: string)
    requires forall kind: Kind :: a.Count(kind) <= b.Count(kind) <= c.Count(kind)
    ensures IssuedBetween(a, c, token) <==> IssuedBetween(a, b, token) || IssuedBetween(b, c, token)
  {
  }

  lemma IssuedOnce(a: MaskState, b: MaskState, c: MaskState, token: string)
    requires IssuedBetween(a, b, token)
    ensures !IssuedBetween(b, c, token)
  {
    var kind: Kind, idx: nat :| a.Count(kind) <= idx < b.Count(kind) && token == Token(kind, idx);
    if IssuedBetween(b, c, token) {
      var kind': Kind, idx': nat :| b.Count(kind') <= idx' < c.Count(kind') && token == Token(kind', idx');
      TokenInjective(kind, idx, kind', idx');
    }
  }

  lemma NoProgress(st: MaskState)
    requires TokensDiffer(st.entries)
    ensures Progress(st, st)
  {
    forall e | e in st.entries
      ensures HasToken(st.entries, e.token)
    {
    }
  }

  lemma {:induction false} SubProgress(engine: Engine, kind: Kind, raw: string, pos: nat, st: MaskState)
    requires TokensDiffer(st.entries)
    ensures Progress(st, SubFrom(engine, kind, raw, pos, st).1)
    decreases |raw| - pos
  {
    NoProgress(st);
    if pos < |raw| {
      var end := engine(raw, pos);
      if end.Some? && pos < end.value <= |raw| {
        var st1 := Callback(kind, raw[pos..end.value], st).1;
        CallbackProgress(kind, raw[pos..end.value], st);
        SubProgress(engine, kind, raw, end.value, st1);
        ProgressTwice(st, st1, SubFrom(engine, kind, raw, end.value, st1).1);
      } else {
        SubProgress(engine, kind, raw, pos + 1, st);
      }
    }
  }

  lemma MaskProgress(engines: Engines, text: string, existing: seq<Entry>)
    requires TokensDiffer(existing)
    ensures Progress(MaskState(existing, map[]), Mask(engines, text, existing).1)
  {
    var st0 := MaskState(existing, map[]);
    var (out1, st1) := SubFrom(engines.email, Email, text, 0, st0);
    var (out2, st2) := SubFrom(engines.card, Card, out1, 0, st1);
    var (out3, st3) := SubFrom(engines.rc, Rc, out2, 0, st2);
    SubProgress(engines.email, Email, text, 0, st0);
    SubProgress(engines.card, Card, out1, 0, st1);
    SubProgress(engines.rc, Rc, out2, 0, st2);
    SubProgress(engines.phone, Phone, out3, 0, st3);
    ProgressTwice(st0, st1, st2);
    ProgressTwice(st0, st2, st3);
    ProgressTwice(st0, st3, Mask(engines, text, existing).1);
  }

  /** A call given a map keeps one of its bindings if and only if it issues the binding's token to no
      new value: the indices of each kind are issued from zero on, whatever the map already holds. */
  lemma ExistingKeptIff(engines: Engines, text: string, existing: seq<Entry>, entry: Entry)
    requires TokensDiffer(existing) && entry in existing
    ensures var st := Mask(engines, text, existing).1;
            entry in st.entries <==>
            forall kind: Kind, idx: nat :: idx < st.Count(kind) ==> entry.token != Token(kind, idx)
  {
    MaskProgress(engines, text, existing);
    var st := Mask(engines, text, existing).1;
    if !IssuedBetween(MaskState(existing, map[]), st, entry.token) {
      forall kind: Kind, idx: nat | idx < st.Count(kind)
        ensures entry.token != Token(kind, idx)
      {
        assert MaskState(existing, map[]).Count(kind) <= idx;
      }
    }
  }

  /** In particular a binding whose token is of no kind and index survives every call, whatever the text. */
  lemma ForeignTokensStay(engines: Engines, text: string, existing: seq<Entry>)
    requires TokensDiffer(existing)
    ensures forall e :: e in existing && (forall kind: Kind, idx: nat :: e.token != Token(kind, idx)) ==>
              e in Mask(engines, text, existing).1.entries
  {
    forall e | e in existing && (forall kind: Kind, idx: nat :: e.token != Token(kind, idx))
      ensures e in Mask(engines, text, existing).1.entries
    {
      ExistingKeptIff(engines, text, existing, e);
    }
  }

  // ---------------------------------------------------------------- a text that is not restored

  const SPELLED_TEXT := "[EMAIL_0]a@b.cz"

  const ASCII_CLASSES := Classes((c: char) => '0' <= c <= '9', (c: char) => Alpha(c) || '0' <= c <= '9' || c == '_')

  /** An engine that finds the address in SPELLED_TEXT and nothing else. */
  const ADDRESS_ENGINES := Engines(
    (s: string, i: nat) => if s == SPELLED_TEXT && i == 9 then Some(15) else None,
    (s: string, i: nat) => None, (s: string, i: nat) => None, (s: string, i: nat) => None)

  lemma AddressSound()
    ensures ASCII_CLASSES.Valid() && ADDRESS_ENGINES.SoundFor(ASCII_CLASSES)
  {
    assert EmailParts(SPELLED_TEXT, 9, 10, 12, 15);
    assert Sound(ASCII_CLASSES, Email, ADDRESS_ENGINES.email);
  }

  lemma FirstEmailToken()
    ensures Token(Email, 0) == "[EMAIL_0]"
  {
    assert Dec(0) == "0";
  }

  lemma SpelledAddress()
    ensures |SPELLED_TEXT| == 15 && SPELLED_TEXT[9..15] == "a@b.cz"
  {
  }

  lemma AddressFound(existing: seq<Entry>)
    requires FindToken(existing, "a@b.cz").None?
    ensures SubFrom(ADDRESS_ENGINES.email, Email, SPELLED_TEXT, 0, MaskState(existing, map[])).1
            == MaskState(Put(existing, "[EMAIL_0]", "a@b.cz"), map[Email := 1])
  {
    var st0 := MaskState(existing, map[]);
    NothingFound(ADDRESS_ENGINES.email, Email, SPELLED_TEXT, 0, 9, st0);
    SpelledAddress();
    assert SubFrom(ADDRESS_ENGINES.email, Email, SPELLED_TEXT, 9, st0).1 == Callback(Email, "a@b.cz", st0).1;
    FirstEmailToken();
  }

  lemma AddressMasked(existing: seq<Entry>)
    requires FindToken(existing, "a@b.cz").None?
    ensures Mask(ADDRESS_ENGINES, SPELLED_TEXT, existing).1
            == MaskState(Put(existing, "[EMAIL_0]", "a@b.cz"), map[Email := 1])
  {
    AddressFound(existing);
    var (out1, st1) := SubFrom(ADDRESS_ENGINES.email, Email, SPELLED_TEXT, 0, MaskState(existing, map[]));
    NothingFound(ADDRESS_ENGINES.card, Card, out1, 0, |out1|, st1);
    var out2 := SubFrom(ADDRESS_ENGINES.card, Card, out1, 0, st1).0;
    NothingFound(ADDRESS_ENGINES.rc, Rc, out2, 0, |out2|, st1);
    var out3 := SubFrom(ADDRESS_ENGINES.rc, Rc, out2, 0, st1).0;
    NothingFound(ADDRESS_ENGINES.phone, Phone, out3, 0, |out3|, st1);
  }

  /** A map from an earlier call loses its binding: the token it holds is issued again for a new address. */
  lemma BindingIsOverwritten()
    ensures var existing := [Entry("[EMAIL_0]", "x@y.cz")];
            Mask(ADDRESS_ENGINES, SPELLED_TEXT, existing).1.entries == [Entry("[EMAIL_0]", "a@b.cz")]
  {
    var existing := [Entry("[EMAIL_0]", "x@y.cz")];
    assert "x@y.cz"[0] != "a@b.cz"[0] && existing[1..] == [];
    assert FindToken(existing[1..], "a@b.cz").None?;
    AddressMasked(existing);
  }

  /** A text that spells out the token its own address is masked by does not come back. */
  lemma SpelledTokenIsLost()
    ensures ASCII_CLASSES.Valid() && ADDRESS_ENGINES.SoundFor(ASCII_CLASSES) && Moderate(ADDRESS_ENGINES, SPELLED_TEXT)
    ensures var (out, st) := Mask(ADDRESS_ENGINES, SPELLED_TEXT, []); Unmask(out, st.entries) != SPELLED_TEXT
  {
    AddressSound();
    AddressMasked([]);
    assert InAt("[EMAIL_0]", SPELLED_TEXT, 0);
    MaskRoundTrip(ASCII_CLASSES, ADDRESS_ENGINES, SPELLED_TEXT);
  }
}
