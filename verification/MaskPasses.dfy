/**
 What `mask_pii` replaces: the leftmost matches of each of the four patterns, pass after pass.
 */
module MaskPasses {
  import opened Options
  import opened PiiPatterns
  import opened Guardrails

  // ---------------------------------------------------------------- what masking replaces

  /** A stretch of a text with the value it holds. */
  datatype Match = Match(lo: nat, hi: nat, value: string)

  predicate Ordered(raw: string, pos: nat, spans: seq<Match>)
    decreases spans
  {
    pos <= |raw|
    && (spans != [] ==>
          && pos <= spans[0].lo < spans[0].hi <= |raw| && spans[0].value == raw[spans[0].lo..spans[0].hi]
          && Ordered(raw, spans[0].hi, spans[1..]))
  }

  /** The leftmost non-overlapping matches from a position on: the engine picks each, and finds nothing in the gaps. */
  predicate Leftmost(engine: Engine, raw: string, pos: nat, spans: seq<Match>)
    decreases spans
  {
    && Ordered(raw, pos, spans)
    && if spans == [] then SilentOver(engine, raw, pos, |raw|)
       else && SilentOver(engine, raw, pos, spans[0].lo) && engine(raw, spans[0].lo) == Some(spans[0].hi)
            && Leftmost(engine, raw, spans[0].hi, spans[1..])
  }

  function TokenOf(entries: seq<Entry>, value: string): string {
    match FindToken(entries, value) case Some(token) => token case None => ""
  }

  /** The text from a position on with each span replaced by the token that stands for it, and nothing else changed. */
  function Rendered(raw: string, pos: nat, spans: seq<Match>, entries: seq<Entry>): string
    requires Ordered(raw, pos, spans)
    decreases spans
  {
    if spans == [] then raw[pos..]
    else
      raw[pos..spans[0].lo] + TokenOf(entries, spans[0].value) + Rendered(raw, spans[0].hi, spans[1..], entries)
  }

  /** Every value of the spans is known. */
  predicate AllKnown(spans: seq<Match>, entries: seq<Entry>) {
    forall k :: 0 <= k < |spans| ==> FindToken(entries, spans[k].value).Some?
  }

  /** The entries added to a map stand for values of the spans, with the indices of the kind in order from the first. */
  ghost predicate Added(kind: Kind, first: nat, spans: seq<Match>, before: seq<Entry>, after: seq<Entry>) {
    before <= after
    && forall t :: |before| <= t < |after| ==>
         after[t].token == Token(kind, first + (t - |before|)) && IsSpanValue(spans, after[t].value)
  }

  ghost predicate IsSpanValue(spans: seq<Match>,
                              value: string) { exists k :: 0 <= k < |spans| && spans[k].value == value }

  lemma {:induction false} FindTokenGrows(entries: seq<Entry>, more: seq<Entry>, value: string)
    requires entries <= more && FindToken(entries, value).Some?
    ensures FindToken(more, value) == FindToken(entries, value)
  {
    if entries[0].value != value { FindTokenGrows(entries[1..], more[1..], value); }
  }

  lemma {:induction false} FindTokenLast(entries: seq<Entry>, token: string, value: string)
    requires FindToken(entries, value).None?
    ensures FindToken(entries + [Entry(token, value)], value) == Some(token)
  {
    if entries != [] {
      assert (entries + [Entry(token, value)])[1..] == entries[1..] + [Entry(token, value)];
      FindTokenLast(entries[1..], token, value);
    }
  }

  /** Every token in the map was issued in this run. */
  ghost predicate OwnTokens(st: MaskState) { forall k :: 0 <= k < |st.entries| ==> IsIssued(st, st.entries[k].token) }

  /** A callback answers with the token of its value in the new map, and adds at most one entry, of its kind. */
  lemma CallbackBinds(kind: Kind, value: string, st: MaskState)
    requires OwnTokens(st)
    ensures var (token, st') := Callback(kind, value, st);
            && OwnTokens(st') && FindToken(st'.entries, value) == Some(token)
            && (forall k: Kind :: k != kind ==> st'.Count(k) == st.Count(k))
            && (st' == st || (st'.entries == st.entries + [Entry(Token(kind, st.Count(kind)), value)]
                              && st'.Count(kind) == st.Count(kind) + 1))
  {
    var (token, st') := Callback(kind, value, st);
    if FindToken(st.entries, value).None? {
      forall k | 0 <= k < |st.entries|
        ensures st.entries[k].token != token && IsIssued(st', st.entries[k].token)
      {
        OwnedBefore(kind, st, st', st.entries[k].token);
      }
      PutAppends(st.entries, token, value);
      FindTokenLast(st.entries, token, value);
      assert IssuedAs(st', token, kind, st.Count(kind));
    }
  }

  lemma OwnedBefore(kind: Kind, st: MaskState, st': MaskState, token: string)
    requires IsIssued(st, token) && st'.counters == st.counters[kind := st.Count(kind) + 1]
    ensures token != Token(kind, st.Count(kind)) && IsIssued(st', token)
  {
    var kd: Kind, idx: nat :| IssuedAs(st, token, kd, idx);
    assert IssuedAs(st', token, kd, idx);
    if token == Token(kind, st.Count(kind)) { TokenInjective(kd, idx, kind, st.Count(kind)); }
  }

  /** The matches a scan from a position on meets. */
  function SpansOf(engine: Engine, raw: string, pos: nat): seq<Match>
    decreases |raw| - pos
  {
    if pos >= |raw| then []
    else if Silent(engine, raw, pos) then SpansOf(engine, raw, pos + 1)
    else
      var end := engine(raw, pos).value;
      [Match(pos, end, raw[pos..end])] + SpansOf(engine, raw, end)
  }

  lemma {:induction false} SpansAreLeftmost(engine: Engine, raw: string, pos: nat)
    requires pos <= |raw|
    ensures Leftmost(engine, raw, pos, SpansOf(engine, raw, pos))
    decreases |raw| - pos
  {
    if pos < |raw| {
      SpansAreLeftmost(engine, raw, if Silent(engine, raw, pos) then pos + 1 else engine(raw, pos).value);
    }
  }

  /** The state after the callback has met the values of the spans in order. */
  function IssueAll(kind: Kind, st: MaskState, spans: seq<Match>): MaskState
    decreases spans
  {
    if spans == [] then st else IssueAll(kind, Callback(kind, spans[0].value, st).1, spans[1..])
  }

  lemma {:induction false} IssueAllAdds(kind: Kind, st: MaskState, spans: seq<Match>)
    requires OwnTokens(st)
    ensures var st' := IssueAll(kind, st, spans);
            && OwnTokens(st') && st.entries <= st'.entries
            && (forall k: Kind :: k != kind ==> st'.Count(k) == st.Count(k))
            && st'.Count(kind) == st.Count(kind) + |st'.entries| - |st.entries|
    decreases spans
  {
    if spans != [] {
      CallbackBinds(kind, spans[0].value, st);
      IssueAllAdds(kind, Callback(kind, spans[0].value, st).1, spans[1..]);
    }
  }

  /** Afterwards the values of the spans are known. */
  lemma {:induction false} IssueAllKnows(kind: Kind, st: MaskState, spans: seq<Match>, k: nat)
    requires OwnTokens(st) && k < |spans|
    ensures FindToken(IssueAll(kind, st, spans).entries, spans[k].value).Some?
    decreases spans
  {
    var st1 := Callback(kind, spans[0].value, st).1;
    CallbackBinds(kind, spans[0].value, st);
    if k == 0 {
      IssueAllAdds(kind, st1, spans[1..]);
      FindTokenGrows(st1.entries, IssueAll(kind, st1, spans[1..]).entries, spans[0].value);
    } else {
      IssueAllKnows(kind, st1, spans[1..], k - 1);
    }
  }

  /** The entries from the n-th on have the kind's indices in order from the
      given one, and the next index follows on. */
  ghost predicate Aligned(kind: Kind, st: MaskState, n: nat, first: nat) {
    && n <= |st.entries| && st.Count(kind) == first + (|st.entries| - n)
    && forall t :: n <= t < |st.entries| ==> st.entries[t].token == Token(kind, first + (t - n))
  }

  lemma CallbackAligns(kind: Kind, value: string, st: MaskState, n: nat, first: nat)
    requires OwnTokens(st) && Aligned(kind, st, n, first)
    ensures Aligned(kind, Callback(kind, value, st).1, n, first)
  {
    var st' := Callback(kind, value, st).1;
    CallbackBinds(kind, value, st);
    if st' != st { OneMoreAligned(kind, value, st, st', n, first); }
  }

  lemma OneMoreAligned(kind: Kind, value: string, st: MaskState, st': MaskState, n: nat, first: nat)
    requires Aligned(kind, st, n, first) && st'.Count(kind) == st.Count(kind) + 1
    requires st'.entries == st.entries + [Entry(Token(kind, st.Count(kind)), value)]
    ensures Aligned(kind, st', n, first)
  {
  }

  /** What the tokens of the added entries are. */
  lemma {:induction false} IssueAllAligns(kind: Kind, st: MaskState, spans: seq<Match>, n: nat, first: nat)
    requires OwnTokens(st) && Aligned(kind, st, n, first)
    ensures Aligned(kind, IssueAll(kind, st, spans), n, first)
    decreases spans
  {
    if spans != [] {
      CallbackBinds(kind, spans[0].value, st);
      CallbackAligns(kind, spans[0].value, st, n, first);
      IssueAllAligns(kind, Callback(kind, spans[0].value, st).1, spans[1..], n, first);
    }
  }

  /** Where an added entry's value comes from. */
  lemma {:induction false} IssuedValue(kind: Kind, st: MaskState, spans: seq<Match>, t: nat)
    requires OwnTokens(st) && |st.entries| <= t < |IssueAll(kind, st, spans).entries|
    ensures IsSpanValue(spans, IssueAll(kind, st, spans).entries[t].value)
    decreases spans
  {
    var st1, after := Callback(kind, spans[0].value, st).1, IssueAll(kind, st, spans).entries;
    CallbackBinds(kind, spans[0].value, st);
    IssueAllAdds(kind, st1, spans[1..]);
    if t < |st1.entries| {
      assert after[t] == st1.entries[t];
    } else {
      IssuedValue(kind, st1, spans[1..], t);
      LaterSpan(spans, after[t].value);
    }
  }

  lemma LaterSpan(spans: seq<Match>, value: string)
    requires spans != [] && IsSpanValue(spans[1..], value)
    ensures IsSpanValue(spans, value)
  {
    var k :| 0 <= k < |spans[1..]| && spans[1..][k].value == value;
    assert spans[k + 1] == spans[1..][k];
  }

  /** The pass leaves the state that meeting its spans leaves. */
  lemma {:induction false} PassIssues(engine: Engine, kind: Kind, raw: string, pos: nat, st: MaskState)
    requires pos <= |raw|
    ensures SubFrom(engine, kind, raw, pos, st).1 == IssueAll(kind, st, SpansOf(engine, raw, pos))
    decreases |raw| - pos
  {
    if pos < |raw| {
      if Silent(engine, raw, pos) {
        PassIssues(engine, kind, raw, pos + 1, st);
      } else {
        var end := engine(raw, pos).value;
        PassIssues(engine, kind, raw, end, Callback(kind, raw[pos..end], st).1);
        assert SpansOf(engine, raw, pos)[1..] == SpansOf(engine, raw, end);
      }
    }
  }

  /** A step of the pass that finds a match: what it puts out is the token of the value in the final map. */
  lemma StepAtMatch(engine: Engine, kind: Kind, raw: string, pos: nat, st: MaskState)
    returns (span: Match, token: string, st1: MaskState)
    requires OwnTokens(st) && pos < |raw| && !Silent(engine, raw, pos)
    ensures span.lo == pos < span.hi <= |raw| && span.value == raw[pos..span.hi] && OwnTokens(st1)
    ensures SubFrom(engine, kind, raw, pos, st) == Prepend(token, SubFrom(engine, kind, raw, span.hi, st1))
    ensures SpansOf(engine, raw, pos) == [span] + SpansOf(engine, raw, span.hi)
    ensures FindToken(SubFrom(engine, kind, raw, span.hi, st1).1.entries, span.value) == Some(token)
  {
    var end := engine(raw, pos).value;
    span := Match(pos, end, raw[pos..end]);
    CallbackBinds(kind, span.value, st);
    token, st1 := Callback(kind, span.value, st).0, Callback(kind, span.value, st).1;
    PassIssues(engine, kind, raw, end, st1);
    IssueAllAdds(kind, st1, SpansOf(engine, raw, end));
    FindTokenGrows(st1.entries, SubFrom(engine, kind, raw, end, st1).1.entries, span.value);
  }

  /** What the pass puts out is the text with the spans replaced. */
  lemma {:induction false} PassRenders(engine: Engine, kind: Kind, raw: string, pos: nat, st: MaskState)
    requires OwnTokens(st) && pos <= |raw|
    ensures Ordered(raw, pos, SpansOf(engine, raw, pos))
    ensures var (out, st') := SubFrom(engine, kind, raw, pos, st);
            out == Rendered(raw, pos, SpansOf(engine, raw, pos), st'.entries)
    decreases |raw| - pos
  {
    SpansAreLeftmost(engine, raw, pos);
    if pos < |raw| {
      if Silent(engine, raw, pos) {
        PassRenders(engine, kind, raw, pos + 1, st);
        SubStep(engine, kind, raw, pos, st);
        RenderedOneMore(raw, pos, SpansOf(engine, raw, pos), SubFrom(engine, kind, raw, pos, st).1.entries);
      } else {
        var span, token, st1 := StepAtMatch(engine, kind, raw, pos, st);
        PassRenders(engine, kind, raw, span.hi, st1);
        RenderedMatch(raw, span, SpansOf(engine, raw, span.hi), SubFrom(engine, kind, raw, span.hi, st1).1.entries);
      }
    }
  }

  lemma RenderedMatch(raw: string, span: Match, rest: seq<Match>, entries: seq<Entry>)
    requires span.lo < span.hi <= |raw| && span.value == raw[span.lo..span.hi] && Ordered(raw, span.hi, rest)
    ensures Ordered(raw, span.lo, [span] + rest)
    ensures Rendered(raw, span.lo, [span] + rest, entries)
            == TokenOf(entries, span.value) + Rendered(raw, span.hi, rest, entries)
  {
    assert ([span] + rest)[1..] == rest && raw[span.lo..span.lo] == "";
  }

  lemma RenderedOneMore(raw: string, pos: nat, spans: seq<Match>, entries: seq<Entry>)
    requires pos < |raw| && Ordered(raw, pos + 1, spans)
    ensures Ordered(raw, pos, spans) && Rendered(raw, pos, spans, entries)
            == [raw[pos]] + Rendered(raw, pos + 1, spans, entries)
  {
    if spans == [] {
      assert [raw[pos]] + raw[pos + 1..] == raw[pos..];
    } else {
      var gap, token := raw[pos + 1..spans[0].lo], TokenOf(entries, spans[0].value);
      var rest := Rendered(raw, spans[0].hi, spans[1..], entries);
      assert [raw[pos]] + gap == raw[pos..spans[0].lo];
      ConsThree(raw[pos], gap, token, rest);
    }
  }

  lemma ConsThree(c: char, x: string, y: string, z: string)
    ensures ([c] + x) + y + z == [c] + (x + y + z)
  {
  }

  /** One pass over a text: which matches, what it puts out and the map it leaves. */
  datatype Masking = Masking(spans: seq<Match>, out: string, entries: seq<Entry>)

  /** The spans are the leftmost matches of the text, each replaced by the token of its value. */
  ghost predicate Replaces(engine: Engine, raw: string, m: Masking) {
    Leftmost(engine, raw, 0, m.spans) && m.out == Rendered(raw, 0, m.spans, m.entries)
  }

  lemma OnePass(engine: Engine, kind: Kind, raw: string, st: MaskState) returns (m: Masking, st': MaskState)
    requires OwnTokens(st)
    ensures (m.out, st') == SubFrom(engine, kind, raw, 0, st) && m.entries == st'.entries && OwnTokens(st')
    ensures forall k: Kind :: k != kind ==> st'.Count(k) == st.Count(k)
    ensures Replaces(engine, raw, m) && AllKnown(m.spans, m.entries)
    ensures Added(kind, st.Count(kind), m.spans, st.entries, m.entries)
  {
    var out: string;
    out, st' := SubFrom(engine, kind, raw, 0, st).0, SubFrom(engine, kind, raw, 0, st).1;
    m := Masking(SpansOf(engine, raw, 0), out, st'.entries);
    PassIssues(engine, kind, raw, 0, st);
    IssueAllAdds(kind, st, m.spans);
    IssueAllAligns(kind, st, m.spans, |st.entries|, st.Count(kind));
    SpansAreLeftmost(engine, raw, 0);
    PassRenders(engine, kind, raw, 0, st);
    forall k | 0 <= k < |m.spans|
      ensures FindToken(m.entries, m.spans[k].value).Some?
    {
      IssueAllKnows(kind, st, m.spans, k);
    }
    forall t | |st.entries| <= t < |m.entries|
      ensures IsSpanValue(m.spans, m.entries[t].value)
    {
      IssuedValue(kind, st, m.spans, t);
    }
  }

  /** Masking with a fresh map is four passes, for e-mail, card, birth number and phone in that order,
      each over the text the one before left.  Each replaces the leftmost matches of its pattern by the
      tokens of their values and nothing else; values not known before get the indices of the kind from zero on. */
  lemma MaskIsFourPasses(engines: Engines, text: string)
    returns (email: Masking, card: Masking, rc: Masking, phone: Masking)
    ensures Replaces(engines.email, text, email) && AllKnown(email.spans, email.entries)
    ensures Replaces(engines.card, email.out, card) && AllKnown(card.spans, card.entries)
    ensures Replaces(engines.rc, card.out, rc) && AllKnown(rc.spans, rc.entries)
    ensures Replaces(engines.phone, rc.out, phone) && AllKnown(phone.spans, phone.entries)
    ensures Added(Email, 0, email.spans, [], email.entries) && Added(Card, 0, card.spans, email.entries, card.entries)
    ensures Added(Rc, 0, rc.spans, card.entries, rc.entries) && Added(Phone, 0, phone.spans, rc.entries, phone.entries)
    ensures var (out, st) := Mask(engines, text, []); out == phone.out && st.entries == phone.entries
  {
    var st1, st2, st3, st4;
    email, st1 := OnePass(engines.email, Email, text, MaskState([], map[]));
    card, st2 := OnePass(engines.card, Card, email.out, st1);
    rc, st3 := OnePass(engines.rc, Rc, card.out, st2);
    phone, st4 := OnePass(engines.phone, Phone, rc.out, st3);
  }

  lemma SilentPass(engine: Engine, kind: Kind, raw: string, st: MaskState)
    requires SilentOver(engine, raw, 0, |raw|)
    ensures SubFrom(engine, kind, raw, 0, st) == (raw, st)
  {
    NothingFound(engine, kind, raw, 0, |raw|, st);
    assert raw[0..|raw|] + "" == raw;
  }

  /** A pass that finds anything leaves a map that is not empty, and no pass empties one. */
  lemma {:induction false} PassFills(engine: Engine, kind: Kind, raw: string, pos: nat, st: MaskState)
    requires pos <= |raw|
    ensures st.entries != [] || !SilentOver(engine, raw, pos, |raw|) ==>
            SubFrom(engine, kind, raw, pos, st).1.entries != []
    decreases |raw| - pos
  {
    if pos < |raw| {
      var end := engine(raw, pos);
      if end.Some? && pos < end.value <= |raw| {
        PassFills(engine, kind, raw, end.value, Callback(kind, raw[pos..end.value], st).1);
      } else {
        PassFills(engine, kind, raw, pos + 1, st);
      }
    }
  }

  /** With a fresh map, nothing is masked if and only if no engine finds
      anything in the text; then the text is unchanged. */
  lemma NothingMaskedIff(engines: Engines, text: string)
    ensures var (out, st) := Mask(engines, text, []);
            && (st.entries == [] <==> forall kind: Kind :: SilentOver(engines.Of(kind), text, 0, |text|))
            && (st.entries == [] ==> out == text)
  {
    var st0 := MaskState([], map[]);
    var (out1, st1) := SubFrom(engines.email, Email, text, 0, st0);
    var (out2, st2) := SubFrom(engines.card, Card, out1, 0, st1);
    var (out3, st3) := SubFrom(engines.rc, Rc, out2, 0, st2);
    PassFills(engines.email, Email, text, 0, st0);
    PassFills(engines.card, Card, out1, 0, st1);
    PassFills(engines.rc, Rc, out2, 0, st2);
    PassFills(engines.phone, Phone, out3, 0, st3);
    assert engines.Of(Email) == engines.email && engines.Of(Card) == engines.card;
    assert engines.Of(Rc) == engines.rc && engines.Of(Phone) == engines.phone;
    if SilentOver(engines.email, text, 0, |text|) {
      SilentPass(engines.email, Email, text, st0);
      if SilentOver(engines.card, text, 0, |text|) {
        SilentPass(engines.card, Card, text, st0);
        if SilentOver(engines.rc, text, 0, |text|) {
          SilentPass(engines.rc, Rc, text, st0);
          if SilentOver(engines.phone, text, 0, |text|) { SilentPass(engines.phone, Phone, text, st0); }
        }
      }
    }
  }

  /** The engine never finds anything. */
  ghost predicate Mute(engine: Engine) { forall s: string, i: nat {:trigger engine(s, i)} :: Silent(engine, s, i) }

  lemma MutePass(engine: Engine, kind: Kind, raw: string, st: MaskState)
    requires Mute(engine)
    ensures SubFrom(engine, kind, raw, 0, st) == (raw, st)
  {
    SilentPass(engine, kind, raw, st);
  }

  lemma {:induction false} FirstEntryStays(engine: Engine, kind: Kind, raw: string, pos: nat, st: MaskState)
    requires st.entries != [] && st.entries[0].token == Token(kind, 0) && st.Count(kind) > 0
    ensures var st' := SubFrom(engine, kind, raw, pos, st).1; st'.entries != [] && st'.entries[0] == st.entries[0]
    decreases |raw| - pos
  {
    if pos < |raw| {
      var end := engine(raw, pos);
      if end.Some? && pos < end.value <= |raw| {
        if Token(kind, st.Count(kind)) == Token(kind, 0) { TokenInjective(kind, st.Count(kind), kind, 0); }
        FirstEntryStays(engine, kind, raw, end.value, Callback(kind, raw[pos..end.value], st).1);
      } else {
        FirstEntryStays(engine, kind, raw, pos + 1, st);
      }
    }
  }

  /** When only one kind is found at all, and first at i..j, the masked text begins with the text up to
      there and the kind's first token, which the map binds to what was there. */
  lemma FirstMatchMasked(engines: Engines, kind: Kind, text: string, i: nat, j: nat)
    requires forall other: Kind :: other != kind ==> Mute(engines.Of(other))
    requires i < j <= |text| && SilentOver(engines.Of(kind), text, 0, i) && engines.Of(kind)(text, i) == Some(j)
    ensures var (out, st) := Mask(engines, text, []);
            && text[..i] + Token(kind, 0) <= out
            && st.entries != [] && st.entries[0] == Entry(Token(kind, 0), text[i..j])
  {
    OnlyOnePass(engines, kind, text);
    var engine, st0 := engines.Of(kind), MaskState([], map[]);
    var st1 := MaskState([Entry(Token(kind, 0), text[i..j])], map[kind := 1]);
    NothingFound(engine, kind, text, 0, i, st0);
    assert Callback(kind, text[i..j], st0) == (Token(kind, 0), st1);
    var rest := SubFrom(engine, kind, text, j, st1);
    PrependTwice(text[..i], Token(kind, 0), rest);
    FirstEntryStays(engine, kind, text, j, st1);
  }

  lemma OnlyOnePass(engines: Engines, kind: Kind, text: string)
    requires forall other: Kind :: other != kind ==> Mute(engines.Of(other))
    ensures Mask(engines, text, []) == SubFrom(engines.Of(kind), kind, text, 0, MaskState([], map[]))
  {
    var st0 := MaskState([], map[]);
    var (out, st) := SubFrom(engines.Of(kind), kind, text, 0, st0);
    if kind != Email { assert Mute(engines.Of(Email)); MutePass(engines.email, Email, text, st0); }
    if kind != Card {
      assert Mute(engines.Of(Card));
      MutePass(engines.card, Card, text, st0);
      MutePass(engines.card, Card, out, st);
    }
    if kind != Rc {
      assert Mute(engines.Of(Rc));
      MutePass(engines.rc, Rc, text, st0);
      MutePass(engines.rc, Rc, out, st);
    }
    if kind != Phone { assert Mute(engines.Of(Phone)); MutePass(engines.phone, Phone, out, st); }
  }

  // ---------------------------------------------------------------- how tokens are spelled

  function Value(digits: string): nat
    requires DecimalChars(digits)
  {
    if digits == "" then 0
    else 10 * Value(digits[..|digits| - 1]) + (digits[|digits| - 1] as int - '0' as int)
  }

  /** The index is written in decimal, without leading zeros. */
  lemma {:induction false} DecimalIs(n: nat)
    ensures DecimalChars(Dec(n)) && Value(Dec(n)) == n && (Dec(n)[0] == '0' ==> n == 0)
  {
    DecChars(n);
    if n >= 10 {
      DecimalIs(n / 10);
      DecChars(n / 10);
      assert Dec(n)[..|Dec(n)| - 1] == Dec(n / 10);
    } else {
      assert Dec(n)[..0] == "";
    }
  }

  /** The tokens of the four kinds. */
  lemma TokensAreSpelled(idx: nat)
    ensures Token(Email, idx) == "[EMAIL_" + Dec(idx) + "]" && Token(Card, idx) == "[CARD_" + Dec(idx) + "]"
    ensures Token(Rc, idx) == "[RC_" + Dec(idx) + "]" && Token(Phone, idx) == "[PHONE_" + Dec(idx) + "]"
  {
    assert "[" + "EMAIL" + "_" == "[EMAIL_" && "[" + "CARD" + "_" == "[CARD_";
    assert "[" + "RC" + "_" == "[RC_" && "[" + "PHONE" + "_" == "[PHONE_";
  }
}
