/**
 PII masking (`mask_pii`) and its inverse (`unmask_pii`).

 Four rewriting passes share one ordered token map; sequential string replacement
 undoes them.  The passes are modelled as Python's left-to-right `re.sub` loop over an
 engine that picks, at a position, the end of a match.  The engine is arbitrary except
 that every span it picks belongs to the language of the pattern (written out below), so
 the results hold for every way of resolving the patterns' repetitions.
 */
module Guardrails {
  import opened Options
  import opened PiiPatterns

  // ---------------------------------------------------------------- tokens

  function Dec(n: nat): string {
    if n < 10 then [('0' as int + n) as char] else Dec(n / 10) + [('0' as int + n % 10) as char]
  }

  function Token(kind: Kind, idx: nat): string {
    "[" + KindName(kind) + "_" + Dec(idx) + "]"
  }

  predicate DecimalChars(s: string) { forall k :: 0 <= k < |s| ==> '0' <= s[k] <= '9' }

  lemma {:induction false} DecChars(n: nat)
    ensures |Dec(n)| > 0 && DecimalChars(Dec(n))
  {
    if n >= 10 { DecChars(n / 10); }
  }

  lemma {:induction false} DecInjective(m: nat, n: nat)
    requires Dec(m) == Dec(n)
    ensures m == n
  {
    DecChars(m / 10);
    DecChars(n / 10);
    var u, v := Dec(m), Dec(n);
    assert u[|u| - 1] == v[|v| - 1];
    if m >= 10 {
      assert n >= 10;
      assert Dec(m / 10) == u[..|u| - 1] == v[..|v| - 1] == Dec(n / 10);
      DecInjective(m / 10, n / 10);
    }
  }

  function Pow10(k: nat): nat { if k == 0 then 1 else 10 * Pow10(k - 1) }

  lemma {:induction false} DecShort(n: nat, k: nat)
    requires k > 0 && n < Pow10(k)
    ensures |Dec(n)| <= k
  {
    if n >= 10 { DecShort(n / 10, k - 1); }
  }

  /** No kind ever issues more indices than this: index 10^8 would be a nine-digit token a phone match fits into. */
  const INDEX_LIMIT := 100_000_000

  /** An opening bracket, a closing one, none in between. */
  predicate Bracketed(tok: string) {
    && |tok| >= 2 && tok[0] == '[' && tok[|tok| - 1] == ']'
    && forall k :: 0 < k < |tok| - 1 ==> tok[k] != '[' && tok[k] != ']'
  }

  ghost predicate InAt(u: string, s: string, p: nat) {
    p + |u| <= |s| && s[p..p + |u|] == u
  }

  /** u occurs in s as a substring. */
  ghost predicate Occurs(u: string, s: string) { exists p: nat :: InAt(u, s, p) }

  /** No matched value fits inside the token. */
  ghost predicate Slim(cls: Classes, tok: string) {
    forall v :: Pii(cls, v) ==> !Occurs(v, tok)
  }

  lemma TokenBracketed(kind: Kind, idx: nat)
    ensures Bracketed(Token(kind, idx)) && '@' !in Token(kind, idx)
  {
    DecChars(idx);
    var tok := Token(kind, idx);
    assert tok[1..|tok| - 1] == KindName(kind) + "_" + Dec(idx);
  }

  /** Digits sit in the last eight places before the closing bracket. */
  lemma TokenDigits(cls: Classes, kind: Kind, idx: nat, k: nat)
    requires cls.Valid() && idx < INDEX_LIMIT && k + 9 < |Token(kind, idx)|
    ensures !cls.digit(Token(kind, idx)[k])
  {
    assert Pow10(8) == INDEX_LIMIT;
    DecShort(idx, 8);
    assert k < 2 + |KindName(kind)|;
    assert Token(kind, idx)[..2 + |KindName(kind)|] == "[" + KindName(kind) + "_";
  }

  lemma TokenSlim(cls: Classes, kind: Kind, idx: nat)
    requires cls.Valid() && idx < INDEX_LIMIT
    ensures Slim(cls, Token(kind, idx))
  {
    forall v | Pii(cls, v)
      ensures !Occurs(v, Token(kind, idx))
    {
      if at: nat :| InAt(v, Token(kind, idx), at) { NotInToken(cls, kind, idx, v, at); }
    }
  }

  lemma NotInToken(cls: Classes, kind: Kind, idx: nat, v: string, at: nat)
    requires cls.Valid() && idx < INDEX_LIMIT && Pii(cls, v)
    ensures !InAt(v, Token(kind, idx), at)
  {
    var tok := Token(kind, idx);
    TokenBracketed(kind, idx);
    if InAt(v, tok, at) {
      assert forall k :: 0 <= k < |v| ==> v[k] == tok[at + k];
      if p: nat, q: nat :| FarDigits(cls, v, p, q) {
        assert at + q < |tok| - 1 by { assert v[q] != ']'; }
        TokenDigits(cls, kind, idx, at + p);
      }
    }
  }

  lemma TokenInjective(kind: Kind, idx: nat, kind': Kind, idx': nat)
    requires Token(kind, idx) == Token(kind', idx')
    ensures kind == kind' && idx == idx'
  {
    var tok, tok' := Token(kind, idx), Token(kind', idx');
    assert tok[1] == tok'[1];
    assert tok[1] == KindName(kind)[0] && tok'[1] == KindName(kind')[0];
    var n := |KindName(kind)| + 2;
    assert Dec(idx) == tok[n..|tok| - 1] == tok'[n..|tok'| - 1] == Dec(idx');
    DecInjective(idx, idx');
  }

  // ---------------------------------------------------------------- masking

  datatype Entry = Entry(token: string, value: string)

  /** Python's `d[token] = value` on an insertion-ordered dict. */
  function Put(entries: seq<Entry>, token: string, value: string): seq<Entry> {
    if entries == [] then [Entry(token, value)]
    else if entries[0].token == token then [Entry(token, value)] + entries[1..]
    else [entries[0]] + Put(entries[1..], token, value)
  }

  /** The first token that stands for the value. */
  function FindToken(entries: seq<Entry>, value: string): Option<string> {
    if entries == [] then None
    else if entries[0].value == value then Some(entries[0].token)
    else FindToken(entries[1..], value)
  }

  datatype MaskState = MaskState(entries: seq<Entry>, counters: map<Kind, nat>) {
    function Count(kind: Kind): nat { if kind in counters then counters[kind] else 0 }
  }

  /** The substitution callback: reuse the value's token or issue the next one of its kind. */
  function Callback(kind: Kind, value: string, st: MaskState): (string, MaskState) {
    match FindToken(st.entries, value)
    case Some(token) => (token, st)
    case None =>
      var token := Token(kind, st.Count(kind));
      (token, MaskState(Put(st.entries, token, value), st.counters[kind := st.Count(kind) + 1]))
  }

  /** Where the pattern matches at a position: the end of the match it picks. */
  type Engine = (string, nat) -> Option<nat>

  ghost predicate Sound(cls: Classes, kind: Kind, engine: Engine) {
    forall s: string, i: nat {:trigger engine(s, i)} :: engine(s, i).Some? ==> Span(cls, kind, s, i, engine(s, i).value)
  }

  /** `pattern.sub(sub, raw)` from position pos on, threading the state through the callback. */
  function SubFrom(engine: Engine, kind: Kind, raw: string, pos: nat, st: MaskState): (string, MaskState)
    decreases |raw| - pos
  {
    if pos >= |raw| then ("", st)
    else
      var end := engine(raw, pos);
      if end.Some? && pos < end.value <= |raw| then
        var (token, st1) := Callback(kind, raw[pos..end.value], st);
        Prepend(token, SubFrom(engine, kind, raw, end.value, st1))
      else
        Prepend([raw[pos]], SubFrom(engine, kind, raw, pos + 1, st))
  }

  function Prepend(front: string, result: (string, MaskState)): (string, MaskState) {
    (front + result.0, result.1)
  }

  lemma PrependTwice(a: string, b: string, result: (string, MaskState))
    ensures Prepend(a, Prepend(b, result)) == Prepend(a + b, result)
  {
    assert a + (b + result.0) == (a + b) + result.0;
  }

  datatype Engines = Engines(email: Engine, card: Engine, rc: Engine, phone: Engine) {
    ghost predicate SoundFor(cls: Classes) {
      Sound(cls, Email, email) && Sound(cls, Card, card) && Sound(cls, Rc, rc) && Sound(cls, Phone, phone)
    }

    function Of(kind: Kind): Engine {
      match kind case Email => email case Card => card case Rc => rc case Phone => phone
    }
  }

  /** The four passes in order. */
  function Mask(engines: Engines, text: string, existing: seq<Entry>): (string, MaskState) {
    var (out1, st1) := SubFrom(engines.email, Email, text, 0, MaskState(existing, map[]));
    var (out2, st2) := SubFrom(engines.card, Card, out1, 0, st1);
    var (out3, st3) := SubFrom(engines.rc, Rc, out2, 0, st2);
    SubFrom(engines.phone, Phone, out3, 0, st3)
  }

  /** `str.replace`: leftmost, non-overlapping; an empty pattern matches between all characters. */
  function Replace(s: string, old_: string, new_: string): string
    decreases |s|
  {
    if old_ == "" then new_ + (if s == "" then "" else [s[0]] + Replace(s[1..], old_, new_))
    else if s == "" then ""
    else if old_ <= s then new_ + Replace(s[|old_|..], old_, new_)
    else [s[0]] + Replace(s[1..], old_, new_)
  }

  function Unmask(text: string, entries: seq<Entry>): string
    decreases entries
  {
    if entries == [] then text
    else Unmask(Replace(text, entries[0].token, entries[0].value), entries[1..])
  }

  /** `mask_pii` while it runs: the token map and the counters that the callbacks mutate. */
  class Masker {
    var maskMap: seq<Entry>
    var counters: map<Kind, nat>

    function State(): MaskState reads this { MaskState(maskMap, counters) }

    constructor (existing: seq<Entry>)
      ensures State() == MaskState(existing, map[])
    {
      maskMap, counters := existing, map[];
    }

    method Substitute(kind: Kind, value: string) returns (token: string)
      modifies this
      ensures (token, State()) == Callback(kind, value, old(State()))
    {
      var i := 0;
      while i < |maskMap|
        invariant i <= |maskMap|
        invariant FindToken(maskMap, value) == FindToken(maskMap[i..], value)
      {
        if maskMap[i].value == value {
          return maskMap[i].token;
        }
        i := i + 1;
      }
      var idx := if kind in counters then counters[kind] else 0;
      counters := counters[kind := idx + 1];
      token := Token(kind, idx);
      maskMap := Put(maskMap, token, value);
    }

    method ReplaceAll(kind: Kind, engine: Engine, raw: string) returns (out: string)
      modifies this
      ensures (out, State()) == SubFrom(engine, kind, raw, 0, old(State()))
    {
      var pos := 0;
      out := "";
      ghost var all := SubFrom(engine, kind, raw, 0, State());
      assert "" + all.0 == all.0;
      while pos < |raw|
        invariant pos <= |raw|
        invariant Prepend(out, SubFrom(engine, kind, raw, pos, State())) == all
        decreases |raw| - pos
      {
        var end := engine(raw, pos);
        ghost var before := out;
        if end.Some? && pos < end.value <= |raw| {
          var token := Substitute(kind, raw[pos..end.value]);
          out := out + token;
          pos := end.value;
          PrependTwice(before, token, SubFrom(engine, kind, raw, pos, State()));
        } else {
          out := out + [raw[pos]];
          pos := pos + 1;
          PrependTwice(before, [raw[pos - 1]], SubFrom(engine, kind, raw, pos, State()));
        }
      }
      assert out + "" == out;
    }
  }

  method MaskPii(engines: Engines, text: string, existing: seq<Entry>) returns (out: string, maskMap: seq<Entry>)
    ensures out == Mask(engines, text, existing).0
    ensures maskMap == Mask(engines, text, existing).1.entries
  {
    var masker := new Masker(existing);
    out := masker.ReplaceAll(Email, engines.email, text);
    out := masker.ReplaceAll(Card, engines.card, out);
    out := masker.ReplaceAll(Rc, engines.rc, out);
    out := masker.ReplaceAll(Phone, engines.phone, out);
    maskMap := masker.maskMap;
  }

  method UnmaskPii(text: string, maskMap: seq<Entry>) returns (out: string)
    ensures out == Unmask(text, maskMap)
  {
    out := text;
    var i := 0;
    while i < |maskMap|
      invariant i <= |maskMap|
      invariant Unmask(out, maskMap[i..]) == Unmask(text, maskMap)
    {
      out := Replace(out, maskMap[i].token, maskMap[i].value);
      i := i + 1;
    }
  }

  // ---------------------------------------------------------------- the text as symbols

  /** A masked text seen as literal characters and issued tokens. */
  datatype Sym = Ch(c: char) | Tok(entry: Entry) {
    function Shown(): string { if Ch? then [c] else entry.token }
    function Meant(): string { if Ch? then [c] else entry.value }
  }

  function Flat(syms: seq<Sym>): string {
    if syms == [] then "" else syms[0].Shown() + Flat(syms[1..])
  }

  /** The text with every token put back to what it stands for. */
  function Expand(syms: seq<Sym>): string {
    if syms == [] then "" else syms[0].Meant() + Expand(syms[1..])
  }

  function Chars(syms: seq<Sym>): nat {
    if syms == [] then 0 else (if syms[0].Ch? then 1 else 0) + Chars(syms[1..])
  }

  function Literal(s: string): (syms: seq<Sym>)
    ensures |syms| == |s| && forall k :: 0 <= k < |s| ==> syms[k] == Ch(s[k])
  {
    seq(|s|, k requires 0 <= k < |s| => Ch(s[k]))
  }

  lemma {:induction false} LiteralFlat(s: string)
    ensures Flat(Literal(s)) == s && Expand(Literal(s)) == s && Chars(Literal(s)) == |s|
  {
    if s != "" {
      assert Literal(s)[1..] == Literal(s[1..]);
      LiteralFlat(s[1..]);
    }
  }

  predicate WellBracketed(syms: seq<Sym>) {
    forall k :: 0 <= k < |syms| ==> syms[k].Tok? ==> Bracketed(syms[k].entry.token)
  }

  /** Every token symbol is an entry of the map. */
  predicate Known(syms: seq<Sym>, entries: seq<Entry>) {
    forall k :: 0 <= k < |syms| ==> syms[k].Tok? ==> syms[k].entry in entries
  }

  ghost predicate IssuedAs(st: MaskState, token: string, kind: Kind, idx: nat) {
    token == Token(kind, idx) && idx < st.Count(kind)
  }

  ghost predicate IsIssued(st: MaskState, token: string) {
    exists kind: Kind, idx: nat :: IssuedAs(st, token, kind, idx)
  }

  /** The map is a bijection between the tokens issued so far and distinct matched values. */
  ghost predicate Issued(cls: Classes, st: MaskState) {
    && (forall k :: 0 <= k < |st.entries| ==>
          Pii(cls, st.entries[k].value) && IsIssued(st, st.entries[k].token))
    && (forall k, l :: 0 <= k < l < |st.entries| ==>
          st.entries[k].token != st.entries[l].token && st.entries[k].value != st.entries[l].value)
    && forall kind: Kind :: st.Count(kind) <= |st.entries|
  }

  predicate Few(st: MaskState) { forall kind: Kind :: st.Count(kind) <= INDEX_LIMIT }

  // ---------------------------------------------------------------- what a pass keeps

  lemma {:induction false} FindTokenFinds(entries: seq<Entry>, value: string)
    ensures match FindToken(entries, value)
            case Some(token) => Entry(token, value) in entries
            case None => forall k :: 0 <= k < |entries| ==> entries[k].value != value
  {
    if entries != [] { FindTokenFinds(entries[1..], value); }
  }

  lemma {:induction false} PutAppends(entries: seq<Entry>, token: string, value: string)
    requires forall k :: 0 <= k < |entries| ==> entries[k].token != token
    ensures Put(entries, token, value) == entries + [Entry(token, value)]
  {
    if entries != [] { PutAppends(entries[1..], token, value); }
  }

  /** The next token of a kind is new, so issuing it appends an entry. */
  lemma NextTokenIsNew(cls: Classes, kind: Kind, st: MaskState, k: nat)
    requires Issued(cls, st) && k < |st.entries|
    ensures st.entries[k].token != Token(kind, st.Count(kind))
  {
    var kd: Kind, i: nat :| IssuedAs(st, st.entries[k].token, kd, i);
    if st.entries[k].token == Token(kind, st.Count(kind)) {
      TokenInjective(kd, i, kind, st.Count(kind));
    }
  }

  lemma StaysIssued(cls: Classes, st: MaskState, st': MaskState, k: nat)
    requires Issued(cls, st) && k < |st.entries| <= |st'.entries| && st'.entries[k] == st.entries[k]
    requires forall kind: Kind :: st.Count(kind) <= st'.Count(kind)
    ensures IsIssued(st', st'.entries[k].token)
  {
    var kind: Kind, idx: nat :| IssuedAs(st, st.entries[k].token, kind, idx);
    assert IssuedAs(st', st'.entries[k].token, kind, idx);
  }

  lemma IssueKeeps(cls: Classes, kind: Kind, value: string, st: MaskState, st': MaskState)
    requires Issued(cls, st) && Pii(cls, value)
    requires forall k :: 0 <= k < |st.entries| ==> st.entries[k].value != value
    requires st'.entries == st.entries + [Entry(Token(kind, st.Count(kind)), value)]
    requires st'.counters == st.counters[kind := st.Count(kind) + 1]
    ensures Issued(cls, st')
  {
    var n := |st.entries|;
    forall kd: Kind
      ensures st.Count(kd) <= st'.Count(kd) <= n + 1
    {
      assert st.Count(kd) <= n;
    }
    forall k | 0 <= k <= n
      ensures Pii(cls, st'.entries[k].value)
      ensures IsIssued(st', st'.entries[k].token)
    {
      if k < n {
        StaysIssued(cls, st, st', k);
      } else {
        assert IssuedAs(st', st'.entries[n].token, kind, st.Count(kind));
      }
    }
    forall k | 0 <= k < n
      ensures st'.entries[k].token != st'.entries[n].token
    {
      NextTokenIsNew(cls, kind, st, k);
    }
  }

  /** A callback never overwrites a token and keeps the map a bijection. */
  lemma CallbackKeeps(cls: Classes, kind: Kind, value: string, st: MaskState)
    requires Issued(cls, st) && Pii(cls, value)
    ensures var (token, st') := Callback(kind, value, st);
            && Issued(cls, st') && st.entries <= st'.entries && |st'.entries| <= |st.entries| + 1
            && Entry(token, value) in st'.entries
            && forall k: Kind :: st.Count(k) <= st'.Count(k)
  {
    FindTokenFinds(st.entries, value);
    if FindToken(st.entries, value).None? {
      var token := Token(kind, st.Count(kind));
      forall k | 0 <= k < |st.entries|
        ensures st.entries[k].token != token
      {
        NextTokenIsNew(cls, kind, st, k);
      }
      PutAppends(st.entries, token, value);
      IssueKeeps(cls, kind, value, st, Callback(kind, value, st).1);
    }
  }

  lemma EntryShape(cls: Classes, st: MaskState, entry: Entry)
    requires cls.Valid() && Issued(cls, st) && entry in st.entries
    ensures Bracketed(entry.token) && Pii(cls, entry.value) && (Few(st) ==> Slim(cls, entry.token))
  {
    var k :| 0 <= k < |st.entries| && st.entries[k] == entry;
    var kind: Kind, idx: nat :| IssuedAs(st, st.entries[k].token, kind, idx);
    TokenBracketed(kind, idx);
    if Few(st) { TokenSlim(cls, kind, idx); }
  }

  lemma HeadTail(front: string, rest: string)
    requires front != ""
    ensures (front + rest)[0] == front[0] && (front + rest)[1..] == front[1..] + rest
    ensures [front[0]] + (front[1..] + rest) == front + rest
  {
  }

  lemma LiteralHead(syms: seq<Sym>, front: string, rest: string)
    requires syms != [] && (syms[0].Tok? ==> Bracketed(syms[0].entry.token))
    requires front != "" && front[0] != '[' && Flat(syms) == front + rest
    ensures syms[0] == Ch(front[0]) && Flat(syms[1..]) == front[1..] + rest
  {
    HeadTail(front, rest);
    HeadTail(syms[0].Shown(), Flat(syms[1..]));
    assert syms[0].Ch?;
    assert syms[0].Shown()[1..] + Flat(syms[1..]) == Flat(syms[1..]);
  }

  /** A bracket-free stretch at the front of the text is made of literal characters. */
  lemma {:induction false} LiteralPrefix(syms: seq<Sym>, front: string, rest: string)
    requires WellBracketed(syms) && '[' !in front && Flat(syms) == front + rest
    ensures |front| <= |syms| && Flat(syms[|front|..]) == rest
    ensures Expand(syms) == front + Expand(syms[|front|..])
    ensures Chars(syms) == |front| + Chars(syms[|front|..])
  {
    if front == "" {
      assert front + rest == rest && syms[0..] == syms;
      assert front + Expand(syms) == Expand(syms);
    } else {
      assert front[0] in front;
      LiteralHead(syms, front, rest);
      LiteralPrefix(syms[1..], front[1..], rest);
      assert syms[1..][|front| - 1..] == syms[|front|..];
      HeadTail(front, Expand(syms[|front|..]));
    }
  }

  /** The engine finds nothing usable at a position. */
  predicate Silent(engine: Engine, raw: string, pos: nat) {
    engine(raw, pos).None? || !(pos < engine(raw, pos).value <= |raw|)
  }

  predicate SilentOver(engine: Engine, raw: string, pos: nat, end: nat) {
    forall i: nat :: pos <= i < end ==> Silent(engine, raw, i)
  }

  lemma SubStep(engine: Engine, kind: Kind, raw: string, pos: nat, st: MaskState)
    requires pos < |raw| && Silent(engine, raw, pos)
    ensures SubFrom(engine, kind, raw, pos, st) == Prepend([raw[pos]], SubFrom(engine, kind, raw, pos + 1, st))
  {
  }

  /** A stretch where nothing is found is copied unchanged. */
  lemma {:induction false} NothingFound(engine: Engine, kind: Kind, raw: string, pos: nat, end: nat, st: MaskState)
    requires pos <= end <= |raw| && SilentOver(engine, raw, pos, end)
    ensures SubFrom(engine, kind, raw, pos, st) == Prepend(raw[pos..end], SubFrom(engine, kind, raw, end, st))
    decreases end - pos
  {
    var rest := SubFrom(engine, kind, raw, end, st);
    if pos == end {
      assert raw[pos..end] + rest.0 == rest.0;
    } else {
      NothingFound(engine, kind, raw, pos + 1, end, st);
      SubStep(engine, kind, raw, pos, st);
      PrependTwice([raw[pos]], raw[pos + 1..end], rest);
      assert [raw[pos]] + raw[pos + 1..end] == raw[pos..end];
    }
  }

  /** No match starts inside an issued token. */
  lemma TokenIsSilent(cls: Classes, engine: Engine, kind: Kind, raw: string, start: nat, tok: string, pos: nat)
    requires cls.Valid() && Sound(cls, kind, engine) && Bracketed(tok) && Slim(cls, tok)
    requires start + |tok| <= |raw| && raw[start..start + |tok|] == tok && start <= pos < start + |tok|
    ensures Silent(engine, raw, pos)
  {
    var end := engine(raw, pos);
    if end.Some? && pos < end.value <= |raw| {
      SpanIsPii(cls, kind, raw, pos, end.value);
      NoMatchInToken(cls, raw, start, tok, pos, end.value);
    }
  }

  lemma NoMatchInToken(cls: Classes, raw: string, start: nat, tok: string, pos: nat, end: nat)
    requires Bracketed(tok) && Slim(cls, tok)
    requires start + |tok| <= |raw| && raw[start..start + |tok|] == tok
    requires start <= pos < start + |tok| && pos < end <= |raw|
    ensures !Pii(cls, raw[pos..end])
  {
    var v := raw[pos..end];
    var last := start + |tok| - 1;
    assert raw[last] == tok[|tok| - 1] == ']';
    if end > last {
      assert v[last - pos] == ']';
    } else {
      PartOccurs(raw, start, tok, pos, end);
    }
  }

  lemma PartOccurs(raw: string, start: nat, tok: string, pos: nat, end: nat)
    requires start + |tok| <= |raw| && raw[start..start + |tok|] == tok && start <= pos <= end <= start + |tok|
    ensures Occurs(raw[pos..end], tok)
  {
    SliceOfSlice(raw, start, start + |tok|, pos, end);
    assert InAt(raw[pos..end], tok, pos - start);
  }

  lemma SliceOfSlice(raw: string, lo: nat, hi: nat, i: nat, j: nat)
    requires lo <= i <= j <= hi <= |raw|
    ensures raw[lo..hi][i - lo..j - lo] == raw[i..j]
  {
    var mid := raw[lo..hi];
    assert forall k {:trigger raw[i..j][k]} :: 0 <= k < j - i ==> mid[i - lo..j - lo][k] == raw[i..j][k];
  }

  ghost predicate Tight(cls: Classes, syms: seq<Sym>) {
    forall k :: 0 <= k < |syms| ==> syms[k].Tok? ==> Bracketed(syms[k].entry.token) && Slim(cls, syms[k].entry.token)
  }

  lemma KnownIsTight(cls: Classes, syms: seq<Sym>, st: MaskState)
    requires cls.Valid() && Issued(cls, st) && Few(st) && Known(syms, st.entries)
    ensures Tight(cls, syms)
  {
    forall k | 0 <= k < |syms| && syms[k].Tok?
      ensures Bracketed(syms[k].entry.token) && Slim(cls, syms[k].entry.token)
    {
      EntryShape(cls, st, syms[k].entry);
    }
  }

  /** What a rewriting step from (syms, st) to (syms', st') keeps. */
  ghost predicate Keeps(cls: Classes, syms: seq<Sym>, st: MaskState, syms': seq<Sym>, st': MaskState) {
    && Issued(cls, st') && Known(syms', st'.entries)
    && st.entries <= st'.entries && (forall k: Kind :: st.Count(k) <= st'.Count(k))
    && Expand(syms') == Expand(syms)
    && Chars(syms') + |st'.entries| <= Chars(syms) + |st.entries|
  }

  /** One rewriting pass turns a flat sequence of literals and known tokens into another one with the same expansion. */
  lemma {:induction false} Pass(cls: Classes, engine: Engine, kind: Kind, raw: string, pos: nat, syms: seq<Sym>,
                                st: MaskState)
    returns (syms': seq<Sym>)
    requires cls.Valid() && Sound(cls, kind, engine) && Issued(cls, st)
    requires Tight(cls, syms) && Known(syms, st.entries)
    requires pos <= |raw| && Flat(syms) == raw[pos..]
    ensures Flat(syms') == SubFrom(engine, kind, raw, pos, st).0
    ensures Keeps(cls, syms, st, syms', SubFrom(engine, kind, raw, pos, st).1)
    decreases |syms|, 1
  {
    if syms == [] {
      return [];
    }
    var end := engine(raw, pos);
    if syms[0].Tok? {
      syms' := PassToken(cls, engine, kind, raw, pos, syms, st);
    } else if end.Some? && pos < end.value <= |raw| {
      syms' := PassMatch(cls, engine, kind, raw, pos, end.value, syms, st);
    } else {
      syms' := PassChar(cls, engine, kind, raw, pos, syms, st);
    }
  }

  lemma {:induction false} PassToken(cls: Classes, engine: Engine, kind: Kind, raw: string, pos: nat, syms: seq<Sym>,
                                     st: MaskState)
    returns (syms': seq<Sym>)
    requires cls.Valid() && Sound(cls, kind, engine) && Issued(cls, st)
    requires Tight(cls, syms) && Known(syms, st.entries)
    requires pos <= |raw| && Flat(syms) == raw[pos..] && syms != [] && syms[0].Tok?
    ensures Flat(syms') == SubFrom(engine, kind, raw, pos, st).0
    ensures Keeps(cls, syms, st, syms', SubFrom(engine, kind, raw, pos, st).1)
    decreases |syms|, 0
  {
    var tok := syms[0].entry.token;
    var next := TokenAt(raw, pos, syms);
    TokenSilent(cls, engine, kind, raw, pos, tok);
    NothingFound(engine, kind, raw, pos, next, st);
    var rest := Pass(cls, engine, kind, raw, next, syms[1..], st);
    syms' := KeepHead(cls, syms, st, rest, SubFrom(engine, kind, raw, next, st).1);
  }

  lemma TokenAt(raw: string, pos: nat, syms: seq<Sym>) returns (next: nat)
    requires pos <= |raw| && Flat(syms) == raw[pos..] && syms != [] && syms[0].Tok?
    ensures var tok := syms[0].entry.token;
            next == pos + |tok| <= |raw| && raw[pos..next] == tok && Flat(syms[1..]) == raw[next..]
  {
    var tok := syms[0].entry.token;
    next := pos + |tok|;
    Cut(raw, pos, tok, Flat(syms[1..]));
  }

  lemma TokenSilent(cls: Classes, engine: Engine, kind: Kind, raw: string, pos: nat, tok: string)
    requires cls.Valid() && Sound(cls, kind, engine) && Bracketed(tok) && Slim(cls, tok)
    requires pos + |tok| <= |raw| && raw[pos..pos + |tok|] == tok
    ensures SilentOver(engine, raw, pos, pos + |tok|)
  {
    forall i: nat | pos <= i < pos + |tok|
      ensures Silent(engine, raw, i)
    {
      TokenIsSilent(cls, engine, kind, raw, pos, tok, i);
    }
  }

  lemma Cut(raw: string, pos: nat, front: string, rest: string)
    requires pos <= |raw| && raw[pos..] == front + rest
    ensures pos + |front| <= |raw| && raw[pos..pos + |front|] == front && raw[pos + |front|..] == rest
  {
    assert raw[pos..pos + |front|] == raw[pos..][..|front|];
    assert raw[pos + |front|..] == raw[pos..][|front|..];
  }

  lemma {:induction false} PassChar(cls: Classes, engine: Engine, kind: Kind, raw: string, pos: nat, syms: seq<Sym>,
                                    st: MaskState)
    returns (syms': seq<Sym>)
    requires cls.Valid() && Sound(cls, kind, engine) && Issued(cls, st)
    requires Tight(cls, syms) && Known(syms, st.entries)
    requires pos <= |raw| && Flat(syms) == raw[pos..] && syms != [] && syms[0].Ch?
    requires !(engine(raw, pos).Some? && pos < engine(raw, pos).value <= |raw|)
    ensures Flat(syms') == SubFrom(engine, kind, raw, pos, st).0
    ensures Keeps(cls, syms, st, syms', SubFrom(engine, kind, raw, pos, st).1)
    decreases |syms|, 0
  {
    assert Flat(syms) == [syms[0].c] + Flat(syms[1..]);
    assert raw[pos] == raw[pos..][0] == syms[0].c;
    assert Flat(syms[1..]) == raw[pos..][1..] == raw[pos + 1..];
    var rest := Pass(cls, engine, kind, raw, pos + 1, syms[1..], st);
    syms' := KeepHead(cls, syms, st, rest, SubFrom(engine, kind, raw, pos + 1, st).1);
  }

  /** A symbol that is kept. */
  lemma Cons(cls: Classes, sym: Sym, syms: seq<Sym>, st: MaskState, rest: seq<Sym>, st': MaskState)
    returns (syms': seq<Sym>)
    requires Keeps(cls, syms, st, rest, st') && Known([sym], st.entries)
    ensures syms' == [sym] + rest
    ensures Flat(syms') == sym.Shown() + Flat(rest)
    ensures Keeps(cls, [sym] + syms, st, syms', st')
  {
    syms' := [sym] + rest;
    assert syms'[1..] == rest && ([sym] + syms)[1..] == syms;
    if sym.Tok? {
      assert [sym][0].entry in st.entries;
    }
  }

  /** The first symbol is kept and the rest rewritten. */
  lemma KeepHead(cls: Classes, syms: seq<Sym>, st: MaskState, rest: seq<Sym>, st': MaskState) returns (syms': seq<Sym>)
    requires syms != [] && Keeps(cls, syms[1..], st, rest, st') && Known(syms, st.entries)
    ensures Flat(syms') == syms[0].Shown() + Flat(rest)
    ensures Keeps(cls, syms, st, syms', st')
  {
    assert [syms[0]] + syms[1..] == syms;
    syms' := Cons(cls, syms[0], syms[1..], st, rest, st');
  }

  /** The branch of a pass where the engine finds a match. */
  lemma {:induction false} PassMatch(cls: Classes, engine: Engine, kind: Kind, raw: string, pos: nat, end: nat,
                                     syms: seq<Sym>, st: MaskState)
    returns (syms': seq<Sym>)
    requires cls.Valid() && Sound(cls, kind, engine) && Issued(cls, st)
    requires Tight(cls, syms) && Known(syms, st.entries)
    requires pos < end <= |raw| && Flat(syms) == raw[pos..] && engine(raw, pos) == Some(end)
    ensures Flat(syms') == SubFrom(engine, kind, raw, pos, st).0
    ensures Keeps(cls, syms, st, syms', SubFrom(engine, kind, raw, pos, st).1)
    decreases |syms|, 0
  {
    FoundIsPii(cls, engine, kind, raw, pos, end);
    assert WellBracketed(syms);
    var n := MatchStep(raw, pos, end, syms);
    var value := raw[pos..end];
    CallbackKeeps(cls, kind, value, st);
    var (token, st1) := Callback(kind, value, st);
    KnownGrows(syms, n, st.entries, st1.entries);
    var rest := Pass(cls, engine, kind, raw, end, syms[n..], st1);
    syms' := AfterMatch(cls, syms, st, Entry(token, value), n, st1, rest, SubFrom(engine, kind, raw, end, st1).1);
  }

  lemma AfterMatch(cls: Classes, syms: seq<Sym>, st: MaskState, entry: Entry, n: nat, st1: MaskState, rest: seq<Sym>,
                   st2: MaskState)
    returns (syms': seq<Sym>)
    requires 0 < n <= |syms| && entry in st1.entries
    requires Expand(syms) == entry.value + Expand(syms[n..]) && Chars(syms) == n + Chars(syms[n..])
    requires st.entries <= st1.entries && |st1.entries| <= |st.entries| + 1
    requires forall k: Kind :: st.Count(k) <= st1.Count(k)
    requires Keeps(cls, syms[n..], st1, rest, st2)
    ensures Flat(syms') == entry.token + Flat(rest)
    ensures Keeps(cls, syms, st, syms', st2)
  {
    syms' := Cons(cls, Tok(entry), syms[n..], st1, rest, st2);
    KeepsMatch(cls, syms, st, Tok(entry), n, st1, syms', st2);
  }

  lemma FoundIsPii(cls: Classes, engine: Engine, kind: Kind, raw: string, pos: nat, end: nat)
    requires cls.Valid() && Sound(cls, kind, engine) && engine(raw, pos) == Some(end)
    ensures pos < end <= |raw| && Pii(cls, raw[pos..end])
  {
    SpanIsPii(cls, kind, raw, pos, end);
  }

  /** A matched stretch, free of brackets, consists of literal characters. */
  lemma MatchStep(raw: string, pos: nat, end: nat, syms: seq<Sym>) returns (n: nat)
    requires WellBracketed(syms) && pos < end <= |raw| && Flat(syms) == raw[pos..] && '[' !in raw[pos..end]
    ensures 0 < n <= |syms| && Flat(syms[n..]) == raw[end..]
    ensures Expand(syms) == raw[pos..end] + Expand(syms[n..]) && Chars(syms) == n + Chars(syms[n..])
  {
    n := |raw[pos..end]|;
    SplitAt(raw, pos, end);
    LiteralPrefix(syms, raw[pos..end], raw[end..]);
  }

  lemma SplitAt(raw: string, pos: nat, end: nat)
    requires pos <= end <= |raw|
    ensures raw[pos..] == raw[pos..end] + raw[end..]
  {
  }

  lemma KnownGrows(syms: seq<Sym>, n: nat, entries: seq<Entry>, entries': seq<Entry>)
    requires n <= |syms| && Known(syms, entries) && entries <= entries'
    ensures Known(syms[n..], entries')
  {
    forall k | 0 <= k < |syms| && syms[k].Tok?
      ensures syms[k].entry in entries'
    {
      var l :| 0 <= l < |entries| && entries[l] == syms[k].entry;
      assert entries'[l] == entries[l];
    }
  }

  lemma KeepsMatch(cls: Classes, syms: seq<Sym>, st: MaskState, sym: Sym, n: nat, st1: MaskState, syms': seq<Sym>,
                   st2: MaskState)
    requires 0 < n <= |syms| && sym.Tok?
    requires Expand(syms) == sym.entry.value + Expand(syms[n..]) && Chars(syms) == n + Chars(syms[n..])
    requires st.entries <= st1.entries && |st1.entries| <= |st.entries| + 1
    requires forall k: Kind :: st.Count(k) <= st1.Count(k)
    requires Keeps(cls, [sym] + syms[n..], st1, syms', st2)
    ensures Keeps(cls, syms, st, syms', st2)
  {
    assert ([sym] + syms[n..])[1..] == syms[n..];
  }

  lemma {:induction false} CountsGrow(engine: Engine, kind: Kind, raw: string, pos: nat, st: MaskState)
    ensures forall k: Kind :: st.Count(k) <= SubFrom(engine, kind, raw, pos, st).1.Count(k)
    decreases |raw| - pos
  {
    if pos < |raw| {
      var end := engine(raw, pos);
      if end.Some? && pos < end.value <= |raw| {
        CountsGrow(engine, kind, raw, end.value, Callback(kind, raw[pos..end.value], st).1);
      } else {
        CountsGrow(engine, kind, raw, pos + 1, st);
      }
    }
  }

  lemma Stage(cls: Classes, engine: Engine, kind: Kind, syms: seq<Sym>, st: MaskState) returns (syms': seq<Sym>)
    requires cls.Valid() && Sound(cls, kind, engine) && Issued(cls, st) && Few(st) && Known(syms, st.entries)
    ensures Flat(syms') == SubFrom(engine, kind, Flat(syms), 0, st).0
    ensures Keeps(cls, syms, st, syms', SubFrom(engine, kind, Flat(syms), 0, st).1)
  {
    KnownIsTight(cls, syms, st);
    syms' := Pass(cls, engine, kind, Flat(syms), 0, syms, st);
  }

  /** How many values the theorems allow: up to 10^8 indices of each kind, which
      every text of up to 10^8 characters respects. */
  ghost predicate Moderate(engines: Engines, text: string) {
    Few(Mask(engines, text, []).1) || |text| <= INDEX_LIMIT
  }

  lemma StageFew(cls: Classes, text: string, syms: seq<Sym>, st: MaskState, end: MaskState)
    requires (Few(end) || |text| <= INDEX_LIMIT) && Issued(cls, st)
    requires Chars(syms) + |st.entries| <= |text|
    requires forall k: Kind :: st.Count(k) <= end.Count(k)
    ensures Few(st)
  {
    forall k: Kind
      ensures st.Count(k) <= INDEX_LIMIT
    {
      assert st.Count(k) <= |st.entries|;
    }
  }

  /** No pass takes an index back. */
  lemma CountsToEnd(engines: Engines, text: string)
    ensures var (out1, st1) := SubFrom(engines.email, Email, text, 0, MaskState([], map[]));
            var (out2, st2) := SubFrom(engines.card, Card, out1, 0, st1);
            var (out3, st3) := SubFrom(engines.rc, Rc, out2, 0, st2);
            var st4 := SubFrom(engines.phone, Phone, out3, 0, st3).1;
            forall k: Kind :: st1.Count(k) <= st2.Count(k) <= st3.Count(k) <= st4.Count(k)
  {
    var (out1, st1) := SubFrom(engines.email, Email, text, 0, MaskState([], map[]));
    var (out2, st2) := SubFrom(engines.card, Card, out1, 0, st1);
    var (out3, st3) := SubFrom(engines.rc, Rc, out2, 0, st2);
    CountsGrow(engines.card, Card, out1, 0, st1);
    CountsGrow(engines.rc, Rc, out2, 0, st2);
    CountsGrow(engines.phone, Phone, out3, 0, st3);
  }

  /** Masking with a fresh map yields literals and known tokens that expand back to the text; the map is a bijection. */
  lemma MaskSymbols(cls: Classes, engines: Engines, text: string) returns (syms: seq<Sym>)
    requires cls.Valid() && engines.SoundFor(cls) && Moderate(engines, text)
    ensures var (out, st) := Mask(engines, text, []);
            && Flat(syms) == out && Expand(syms) == text
            && Issued(cls, st) && Few(st) && Known(syms, st.entries) && |st.entries| <= |text|
  {
    LiteralFlat(text);
    var st0 := MaskState([], map[]);
    var (out1, st1) := SubFrom(engines.email, Email, text, 0, st0);
    var (out2, st2) := SubFrom(engines.card, Card, out1, 0, st1);
    var (out3, st3) := SubFrom(engines.rc, Rc, out2, 0, st2);
    var (out4, st4) := SubFrom(engines.phone, Phone, out3, 0, st3);
    assert Mask(engines, text, []) == (out4, st4);
    CountsToEnd(engines, text);
    var syms1 := Stage(cls, engines.email, Email, Literal(text), st0);
    StageFew(cls, text, syms1, st1, st4);
    var syms2 := Stage(cls, engines.card, Card, syms1, st1);
    StageFew(cls, text, syms2, st2, st4);
    var syms3 := Stage(cls, engines.rc, Rc, syms2, st2);
    StageFew(cls, text, syms3, st3, st4);
    syms := Stage(cls, engines.phone, Phone, syms3, st3);
    StageFew(cls, text, syms, st4, st4);
  }

  // ---------------------------------------------------------------- unmasking

  lemma InAtShift(u: string, front: string, s: string, p: nat)
    requires InAt(u, s, p)
    ensures InAt(u, front + s, |front| + p)
  {
    assert (front + s)[|front| + p..|front| + p + |u|] == s[p..p + |u|];
  }

  /** A bracket-free prefix of the masked text is a prefix of the expanded text. */
  lemma {:induction false} PrefixSurvives(u: string, syms: seq<Sym>)
    requires forall k :: 0 <= k < |syms| ==> syms[k].Tok? ==> Bracketed(syms[k].entry.token)
    requires '[' !in u && u <= Flat(syms)
    ensures u <= Expand(syms)
  {
    if u != "" {
      assert u[0] == Flat(syms)[0];
      assert syms[0].Ch?;
      assert Flat(syms) == [syms[0].c] + Flat(syms[1..]);
      assert u[1..] <= Flat(syms[1..]);
      PrefixSurvives(u[1..], syms[1..]);
      assert u == [u[0]] + u[1..];
    }
  }

  lemma BracketedPrefix(tok: string, tok': string, rest: string)
    requires Bracketed(tok) && Bracketed(tok') && tok <= tok' + rest
    ensures tok == tok'
  {
    var a, b := |tok| - 1, |tok'| - 1;
    assert a <= b ==> tok'[a] == ']';
    assert b <= a ==> tok[b] == ']';
  }

  lemma ReplaceStep(s: string, tok: string, value: string)
    requires s != "" && tok != "" && !(tok <= s)
    ensures Replace(s, tok, value) == [s[0]] + Replace(s[1..], tok, value)
  {
  }

  /** Replacing steps over a stretch at none of whose positions the pattern starts. */
  lemma {:induction false} ReplaceSkips(tok: string, value: string, front: string, rest: string)
    requires Bracketed(tok) && '[' !in front
    ensures Replace(front + rest, tok, value) == front + Replace(rest, tok, value)
  {
    if front == "" {
      assert front + rest == rest;
    } else {
      ReplaceSkips(tok, value, front[1..], rest);
      var s, tail := front + rest, Replace(rest, tok, value);
      assert s[1..] == front[1..] + rest;
      assert s[0] == front[0] && front[0] in front;
      ReplaceStep(s, tok, value);
      assert [front[0]] + (front[1..] + tail) == front + tail;
    }
  }

  /** The symbols with one token put back. */
  function PutBack(syms: seq<Sym>, entry: Entry): seq<Sym> {
    if syms == [] then []
    else (if syms[0] == Tok(entry) then Literal(entry.value) else [syms[0]]) + PutBack(syms[1..], entry)
  }

  lemma {:induction false} FlatAppend(a: seq<Sym>, b: seq<Sym>)
    ensures Flat(a + b) == Flat(a) + Flat(b) && Expand(a + b) == Expand(a) + Expand(b)
  {
    if a == [] {
      assert a + b == b;
    } else {
      assert (a + b)[1..] == a[1..] + b;
      FlatAppend(a[1..], b);
      assert a[0].Shown() + (Flat(a[1..]) + Flat(b)) == (a[0].Shown() + Flat(a[1..])) + Flat(b);
      assert a[0].Meant() + (Expand(a[1..]) + Expand(b)) == (a[0].Meant() + Expand(a[1..])) + Expand(b);
    }
  }

  predicate Unopened(s: string) { '[' !in s }

  lemma BracketedTail(tok: string)
    requires Bracketed(tok)
    ensures Unopened(tok[1..])
  {
    assert tok[1..] == tok[1..|tok| - 1] + [tok[|tok| - 1]];
  }

  /** An occurrence of a token at a literal character would already be an occurrence in the expanded text. */
  lemma LiteralOccurrence(syms: seq<Sym>, tok: string)
    requires WellBracketed(syms) && Bracketed(tok) && syms != [] && syms[0].Ch? && tok <= Flat(syms)
    ensures Occurs(tok, Expand(syms))
  {
    assert Flat(syms) == [syms[0].c] + Flat(syms[1..]);
    assert tok[1..] <= Flat(syms[1..]);
    BracketedTail(tok);
    PrefixSurvives(tok[1..], syms[1..]);
    assert tok == [syms[0].c] + tok[1..];
    assert InAt(tok, Expand(syms), 0);
  }

  /** Replacing one token in the masked text puts it back, provided it does not occur in the text itself. */
  lemma {:induction false} ReplacePutsBack(syms: seq<Sym>, entry: Entry)
    requires WellBracketed(syms) && Bracketed(entry.token)
    requires forall k :: 0 <= k < |syms| && syms[k].Tok? && syms[k].entry.token == entry.token ==>
             syms[k].entry == entry
    requires !Occurs(entry.token, Expand(syms))
    ensures Replace(Flat(syms), entry.token, entry.value) == Flat(PutBack(syms, entry))
    ensures Expand(PutBack(syms, entry)) == Expand(syms)
  {
    if syms != [] {
      var tok, value, rest := entry.token, entry.value, Flat(syms[1..]);
      if Occurs(tok, Expand(syms[1..])) {
        var p: nat :| InAt(tok, Expand(syms[1..]), p);
        InAtShift(tok, syms[0].Meant(), Expand(syms[1..]), p);
      }
      ReplacePutsBack(syms[1..], entry);
      if syms[0] == Tok(entry) {
        LiteralFlat(value);
        FlatAppend(Literal(value), PutBack(syms[1..], entry));
        assert (tok + rest)[|tok|..] == rest;
      } else {
        FlatAppend([syms[0]], PutBack(syms[1..], entry));
        NotAtHead(syms, tok);
        ReplacePastHead(syms, entry);
      }
    }
  }

  lemma ReplacePastHead(syms: seq<Sym>, entry: Entry)
    requires Bracketed(entry.token) && syms != [] && (syms[0].Tok? ==> Bracketed(syms[0].entry.token))
    requires !(entry.token <= Flat(syms))
    ensures Replace(Flat(syms), entry.token, entry.value)
            == syms[0].Shown() + Replace(Flat(syms[1..]), entry.token, entry.value)
  {
    ShownTail(syms[0]);
    ReplacePast(syms[0].Shown(), Flat(syms[1..]), entry.token, entry.value);
  }

  lemma ShownTail(sym: Sym)
    requires sym.Tok? ==> Bracketed(sym.entry.token)
    ensures sym.Shown() != "" && Unopened(sym.Shown()[1..])
  {
  }

  lemma ReplacePast(shown: string, rest: string, tok: string, value: string)
    requires Bracketed(tok) && shown != "" && Unopened(shown[1..]) && !(tok <= shown + rest)
    ensures Replace(shown + rest, tok, value) == shown + Replace(rest, tok, value)
  {
    HeadTail(shown, rest);
    ReplaceStep(shown + rest, tok, value);
    ReplaceSkips(tok, value, shown[1..], rest);
    HeadTail(shown, Replace(rest, tok, value));
  }

  lemma NotAtHead(syms: seq<Sym>, tok: string)
    requires WellBracketed(syms) && Bracketed(tok)
    requires syms != [] && (syms[0].Tok? ==> syms[0].entry.token != tok)
    requires !Occurs(tok, Expand(syms))
    ensures Flat(syms) != "" && !(tok <= Flat(syms))
  {
    if tok <= Flat(syms) {
      if syms[0].Ch? {
        LiteralOccurrence(syms, tok);
      } else {
        BracketedPrefix(tok, syms[0].entry.token, Flat(syms[1..]));
      }
    }
  }

  lemma {:induction false} PutBackSymbols(syms: seq<Sym>, entry: Entry, sym: Sym)
    requires sym in PutBack(syms, entry) && sym.Tok?
    ensures sym in syms && sym != Tok(entry)
  {
    if syms[0] == Tok(entry) {
      assert sym !in Literal(entry.value);
    }
    if sym !in [syms[0]] || syms[0] == Tok(entry) {
      PutBackSymbols(syms[1..], entry, sym);
    }
  }

  lemma {:induction false} AllLiteral(syms: seq<Sym>)
    requires forall k :: 0 <= k < |syms| ==> syms[k].Ch?
    ensures Flat(syms) == Expand(syms)
  {
    if syms != [] { AllLiteral(syms[1..]); }
  }

  predicate DistinctTokens(entries: seq<Entry>) {
    && (forall k :: 0 <= k < |entries| ==> Bracketed(entries[k].token))
    && forall k, l :: 0 <= k < l < |entries| ==> entries[k].token != entries[l].token
  }

  /** Sequential replacement of all tokens gives the expansion, if no token occurs in the expansion itself. */
  lemma {:induction false} UnmaskExpands(syms: seq<Sym>, entries: seq<Entry>)
    requires DistinctTokens(entries) && Known(syms, entries)
    requires forall k :: 0 <= k < |entries| ==> !Occurs(entries[k].token, Expand(syms))
    ensures Unmask(Flat(syms), entries) == Expand(syms)
    decreases entries
  {
    if entries == [] {
      AllLiteral(syms);
    } else {
      var entry, syms' := entries[0], PutBack(syms, entries[0]);
      ReplacePutsBack(syms, entry);
      forall k | 0 <= k < |syms'| && syms'[k].Tok?
        ensures syms'[k].entry in entries[1..]
      {
        PutBackSymbols(syms, entry, syms'[k]);
      }
      UnmaskExpands(syms', entries[1..]);
    }
  }

  /** What replacement can create: no bracketed text except one that was there, when the inserted value fits in none. */
  lemma {:induction false} PrefixWasThere(u: string, s: string, tok: string, value: string)
    requires tok != "" && Insertable(value) && !Occurs(value, u)
    requires u != "" ==> u[|u| - 1] == ']'
    requires u <= Replace(s, tok, value)
    ensures u <= s
    decreases |s|
  {
    if u != "" && s != "" {
      if tok <= s {
        InsertedAtFront(u, value, Replace(s[|tok|..], tok, value));
      } else {
        ReplaceStep(s, tok, value);
        ConsPrefix(u, s[0], Replace(s[1..], tok, value));
        if Occurs(value, u[1..]) {
          OccursIn(value, [u[0]], u[1..]);
        }
        PrefixWasThere(u[1..], s[1..], tok, value);
        ConsPrefix(u, s[0], s[1..]);
        assert s == [s[0]] + s[1..];
      }
    }
  }

  lemma ConsPrefix(u: string, c: char, rest: string)
    requires u != ""
    ensures u <= [c] + rest <==> u[0] == c && u[1..] <= rest
    ensures u == [u[0]] + u[1..]
  {
    if u[0] == c && u[1..] <= rest {
      assert ([c] + rest)[..|u|] == [c] + rest[..|u| - 1];
    }
    if u <= [c] + rest {
      assert rest[..|u| - 1] == ([c] + rest)[..|u|][1..];
    }
  }

  lemma InsertedAtFront(u: string, value: string, rest: string)
    requires u != "" && u[|u| - 1] == ']' && BracketFree(value) && u <= value + rest
    ensures Occurs(value, u)
  {
    assert |value| < |u| by {
      assert (value + rest)[|u| - 1] == u[|u| - 1];
      assert forall k :: 0 <= k < |value| ==> value[k] in value;
    }
    assert InAt(value, u, 0);
  }

  lemma OccursIn(u: string, a: string, b: string)
    requires Occurs(u, b)
    ensures Occurs(u, a + b)
  {
    var p: nat :| InAt(u, b, p);
    InAtShift(u, a, b, p);
  }

  /** An inserted value fits into none of the bracketed texts we follow. */
  predicate Insertable(value: string) { value != "" && BracketFree(value) }

  /** Replacing a token removes it and creates no other bracketed text. */
  lemma {:induction false} ReplaceCreatesNothing(u: string, s: string, tok: string, value: string)
    requires Bracketed(u) && Bracketed(tok) && Insertable(value) && !Occurs(value, u)
    requires u == tok || !Occurs(u, s)
    ensures !Occurs(u, Replace(s, tok, value))
    decreases |s|
  {
    if s != "" {
      var n := if tok <= s then |tok| else 1;
      var rest := s[n..];
      assert s == s[..n] + rest;
      if Occurs(u, rest) { OccursIn(u, s[..n], rest); }
      ReplaceCreatesNothing(u, rest, tok, value);
      if Occurs(u, Replace(s, tok, value)) {
        NewOccurrence(u, s, tok, value);
      }
    }
  }

  /** An occurrence in the result lies in the rest's result, or begins at an
      unreplaced head that it also matched before. */
  lemma NewOccurrence(u: string, s: string, tok: string, value: string)
    requires Bracketed(u) && Bracketed(tok) && Insertable(value) && !Occurs(value, u)
    requires s != "" && Occurs(u, Replace(s, tok, value))
    ensures Occurs(u, Replace(s[if tok <= s then |tok| else 1..], tok, value))
            || (!(tok <= s) && u <= s && Occurs(u, s))
  {
    var p: nat :| InAt(u, Replace(s, tok, value), p);
    if tok <= s {
      NotInFront(u, value, Replace(s[|tok|..], tok, value), p);
    } else {
      ReplaceStep(s, tok, value);
      if p > 0 {
        NotLater(u, [s[0]], Replace(s[1..], tok, value), p);
      } else {
        PrefixWasThere(u, s, tok, value);
        assert InAt(u, s, 0);
      }
    }
  }

  lemma NotLater(u: string, front: string, rest: string, p: nat)
    requires InAt(u, front + rest, p) && p >= |front|
    ensures Occurs(u, rest)
  {
    assert rest[p - |front|..p - |front| + |u|] == (front + rest)[p..p + |u|];
    assert InAt(u, rest, p - |front|);
  }

  lemma NotInFront(u: string, front: string, rest: string, p: nat)
    requires Bracketed(u) && BracketFree(front) && InAt(u, front + rest, p)
    ensures Occurs(u, rest)
  {
    assert (front + rest)[p] == (front + rest)[p..p + |u|][0] == '[';
    assert forall k :: 0 <= k < |front| ==> front[k] in front;
    NotLater(u, front, rest, p);
  }

  lemma OccursNeedsBracket(u: string, s: string)
    requires Bracketed(u) && Occurs(u, s)
    ensures !Unopened(s)
  {
    var p: nat :| InAt(u, s, p);
    assert s[p] == s[p..p + |u|][0] == '[';
  }

  lemma {:induction false} UnmaskRemoves(u: string, s: string, entries: seq<Entry>)
    requires Bracketed(u)
    requires forall k :: 0 <= k < |entries| ==>
               Bracketed(entries[k].token) && Insertable(entries[k].value) && !Occurs(entries[k].value, u)
    requires !Occurs(u, s) || exists k :: 0 <= k < |entries| && entries[k].token == u
    ensures !Occurs(u, Unmask(s, entries))
    decreases entries
  {
    if entries != [] {
      if u == entries[0].token || !Occurs(u, s) {
        ReplaceCreatesNothing(u, s, entries[0].token, entries[0].value);
      }
      UnmaskRemoves(u, Replace(s, entries[0].token, entries[0].value), entries[1..]);
    }
  }

  // ---------------------------------------------------------------- results

  /** None of the tokens that masking the text issues is already spelled out in the text. */
  ghost predicate NoTokenInText(engines: Engines, text: string) {
    forall k :: 0 <= k < |Mask(engines, text, []).1.entries| ==>
      !Occurs(Mask(engines, text, []).1.entries[k].token, text)
  }

  /** Masking with a fresh map and unmasking with the map it made is the identity on exactly
      the texts that do not already spell out an issued token. */
  lemma MaskRoundTrip(cls: Classes, engines: Engines, text: string)
    requires cls.Valid() && engines.SoundFor(cls) && Moderate(engines, text)
    ensures var (out, st) := Mask(engines, text, []);
            Unmask(out, st.entries) == text <==> NoTokenInText(engines, text)
  {
    var syms := MaskSymbols(cls, engines, text);
    var (out, st) := Mask(engines, text, []);
    forall k | 0 <= k < |st.entries|
      ensures Bracketed(st.entries[k].token) && Pii(cls, st.entries[k].value) && Slim(cls, st.entries[k].token)
    {
      EntryShape(cls, st, st.entries[k]);
    }
    if NoTokenInText(engines, text) {
      UnmaskExpands(syms, st.entries);
    }
    if Unmask(out, st.entries) == text {
      forall k | 0 <= k < |st.entries|
        ensures !Occurs(st.entries[k].token, text)
      {
        UnmaskRemoves(st.entries[k].token, out, st.entries);
      }
    }
  }

  /** A text that spells out no token at all always survives. */
  lemma TokenlessRoundTrip(cls: Classes, engines: Engines, text: string)
    requires cls.Valid() && engines.SoundFor(cls) && Moderate(engines, text)
    requires forall kind: Kind, idx: nat :: !Occurs(Token(kind, idx), text)
    ensures var (out, st) := Mask(engines, text, []); Unmask(out, st.entries) == text
  {
    var syms := MaskSymbols(cls, engines, text);
    var (out, st) := Mask(engines, text, []);
    forall k | 0 <= k < |st.entries|
      ensures !Occurs(st.entries[k].token, text)
    {
      assert IsIssued(st, st.entries[k].token);
    }
    MaskRoundTrip(cls, engines, text);
  }

  /** In particular a text without an opening bracket. */
  lemma BracketlessRoundTrip(cls: Classes, engines: Engines, text: string)
    requires cls.Valid() && engines.SoundFor(cls) && Moderate(engines, text)
    requires Unopened(text)
    ensures var (out, st) := Mask(engines, text, []); Unmask(out, st.entries) == text
  {
    forall kind: Kind, idx: nat
      ensures !Occurs(Token(kind, idx), text)
    {
      TokenBracketed(kind, idx);
      if Occurs(Token(kind, idx), text) { OccursNeedsBracket(Token(kind, idx), text); }
    }
    TokenlessRoundTrip(cls, engines, text);
  }

  /** The map made from a fresh start is a bijection between issued tokens and matched values:
      equal values share a token, different values never do. */
  lemma MaskMapIsBijection(cls: Classes, engines: Engines, text: string)
    requires cls.Valid() && engines.SoundFor(cls) && Moderate(engines, text)
    ensures var entries := Mask(engines, text, []).1.entries;
            forall k, l :: 0 <= k < |entries| && 0 <= l < |entries| ==>
              (entries[k].token == entries[l].token <==> k == l) && (entries[k].value == entries[l].value <==> k == l)
  {
    var syms := MaskSymbols(cls, engines, text);
  }
}
