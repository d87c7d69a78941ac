/**
 The four patterns of `mask_pii`, written out as languages of spans of a text: a match
 depends on its surroundings through the word boundaries.  How an engine resolves
 repetitions is left open; only what every match must look like is stated.
 */
module PiiPatterns {
  datatype Kind = Email | Card | Rc | Phone

  function KindName(kind: Kind): string {
    match kind
    case Email => "EMAIL"
    case Card => "CARD"
    case Rc => "RC"
    case Phone => "PHONE"
  }

  /** Python's `\d` and `\w`: Unicode classes, of which only these facts are used. */
  datatype Classes = Classes(digit: char -> bool, word: char -> bool) {
    ghost predicate Valid() {
      && (forall c {:trigger digit(c)} :: '0' <= c <= '9' ==> digit(c))
      && (forall c {:trigger digit(c)} :: (c == '[' || c == ']' || c == '_' || 'A' <= c <= 'Z') ==> !digit(c))
    }
  }

  ghost predicate RunOf(p: char -> bool, s: string, i: nat, j: nat) {
    i <= j <= |s| && forall k :: i <= k < j ==> p(s[k])
  }

  ghost predicate Boundary(cls: Classes, s: string, i: nat) {
    i <= |s| && (i > 0 && cls.word(s[i - 1])) != (i < |s| && cls.word(s[i]))
  }

  predicate Alpha(c: char) { 'A' <= c <= 'Z' || 'a' <= c <= 'z' }
  predicate DomainChar(c: char) { Alpha(c) || '0' <= c <= '9' || c == '.' || c == '-' }
  predicate LocalChar(c: char) { DomainChar(c) || c == '_' || c == '%' || c == '+' }

  /** `[A-Za-z0-9._%+-]+@[A-Za-z0-9.-]+\.[A-Za-z]{2,}` with the `@` at a and the last dot at b. */
  ghost predicate EmailParts(s: string, i: nat, a: nat, b: nat, j: nat) {
    && i < a && RunOf(LocalChar, s, i, a)
    && a + 1 < b && b + 3 <= j <= |s| && s[a] == '@'
    && RunOf(DomainChar, s, a + 1, b) && s[b] == '.'
    && RunOf(Alpha, s, b + 1, j)
  }

  /** An optional separator out of `seps` in s[i..j]. */
  ghost predicate OptSep(seps: set<char>, s: string, i: nat, j: nat) {
    i == j <= |s| || (j == i + 1 <= |s| && s[i] in seps)
  }

  /** `\b(?:\d[ -]?){13,19}\b` with the groups delimited by cuts. */
  ghost predicate CardParts(cls: Classes, s: string, i: nat, j: nat, cuts: seq<nat>) {
    && Boundary(cls, s, i) && Boundary(cls, s, j)
    && 14 <= |cuts| <= 20 && cuts[0] == i && cuts[|cuts| - 1] == j
    && (forall k :: 0 <= k < |cuts| ==> cuts[k] <= |s|)
    && forall k {:trigger cuts[k]} :: 0 <= k < |cuts| - 1 ==>
         cuts[k] < |s| && cls.digit(s[cuts[k]]) && OptSep({' ', '-'}, s, cuts[k] + 1, cuts[k + 1])
  }

  /** `\b\d{6}/?\d{3,4}\b` with the second run starting at m. */
  ghost predicate RcParts(cls: Classes, s: string, i: nat, m: nat, j: nat) {
    && Boundary(cls, s, i) && Boundary(cls, s, j)
    && RunOf(cls.digit, s, i, i + 6)
    && OptSep({'/'}, s, i + 6, m)
    && RunOf(cls.digit, s, m, j) && 3 <= j - m <= 4
  }

  const PHONE_SEPS := {' ', '-', '.'}

  /** `(?:\+?\d{1,3}[ \-.]?)?` */
  ghost predicate CountryCode(cls: Classes, s: string, i: nat, a: nat) {
    || i == a
    || exists p: nat, q: nat ::
         OptSep({'+'}, s, i, p) && RunOf(cls.digit, s, p, q) && 1 <= q - p <= 3 && OptSep(PHONE_SEPS, s, q, a)
  }

  /** `(?:\(?\d{2,4}\)?[ \-.]?)?` */
  ghost predicate AreaCode(cls: Classes, s: string, a: nat, b: nat) {
    || a == b
    || exists p: nat, q: nat, r: nat ::
         OptSep({'('}, s, a, p) && RunOf(cls.digit, s, p, q) && 2 <= q - p <= 4
         && OptSep({')'}, s, q, r) && OptSep(PHONE_SEPS, s, r, b)
  }

  /** The phone pattern: codes, then `\d{3}[ \-.]?\d{3}[ \-.]?\d{3,4}`. */
  ghost predicate PhoneParts(cls: Classes, s: string, i: nat, a: nat, b: nat, c: nat, d: nat, j: nat) {
    && CountryCode(cls, s, i, a) && AreaCode(cls, s, a, b)
    && RunOf(cls.digit, s, b, b + 3) && OptSep(PHONE_SEPS, s, b + 3, c)
    && RunOf(cls.digit, s, c, c + 3) && OptSep(PHONE_SEPS, s, c + 3, d)
    && RunOf(cls.digit, s, d, j) && 3 <= j - d <= 4
  }

  /** s[i..j] is a match of the pattern of the given kind at position i of s. */
  ghost predicate Span(cls: Classes, kind: Kind, s: string, i: nat, j: nat) {
    match kind
    case Email => exists a: nat, b: nat :: EmailParts(s, i, a, b, j)
    case Card => exists cuts: seq<nat> :: CardParts(cls, s, i, j, cuts)
    case Rc => exists m: nat :: RcParts(cls, s, i, m, j)
    case Phone => exists a: nat, b: nat, c: nat, d: nat :: PhoneParts(cls, s, i, a, b, c, d, j)
  }

  predicate BracketFree(v: string) { '[' !in v && ']' !in v }

  ghost predicate FarDigits(cls: Classes, v: string, p: nat, q: nat) {
    p + 8 <= q < |v| && cls.digit(v[p]) && cls.digit(v[q])
  }

  /** What every matched value has in common: it can be neither cut by a bracket nor fit inside a short token. */
  ghost predicate Pii(cls: Classes, v: string) {
    |v| > 0 && BracketFree(v) && ('@' in v || exists p: nat, q: nat :: FarDigits(cls, v, p, q))
  }

  /** No bracket in s[i..j], position by position. */
  ghost predicate Plain(s: string, i: nat, j: nat) {
    i <= j <= |s| && forall k :: i <= k < j ==> s[k] != '[' && s[k] != ']'
  }

  lemma PlainPii(cls: Classes, s: string, i: nat, j: nat, p: nat, q: nat)
    requires i < j && Plain(s, i, j)
    requires i <= p && p + 8 <= q < j && cls.digit(s[p]) && cls.digit(s[q])
    ensures Pii(cls, s[i..j])
  {
    assert FarDigits(cls, s[i..j], p - i, q - i);
  }

  lemma SpanIsPii(cls: Classes, kind: Kind, s: string, i: nat, j: nat)
    requires cls.Valid() && Span(cls, kind, s, i, j)
    ensures i < j <= |s| && Pii(cls, s[i..j])
  {
    match kind
    case Email =>
      var a: nat, b: nat :| EmailParts(s, i, a, b, j);
      EmailIsPii(cls, s, i, a, b, j);
    case Card =>
      var cuts: seq<nat> :| CardParts(cls, s, i, j, cuts);
      CardIsPii(cls, s, i, j, cuts);
    case Rc =>
      var m: nat :| RcParts(cls, s, i, m, j);
      RcIsPii(cls, s, i, m, j);
    case Phone =>
      var a: nat, b: nat, c: nat, d: nat :| PhoneParts(cls, s, i, a, b, c, d, j);
      PhoneIsPii(cls, s, i, a, b, c, d, j);
  }

  lemma RcIsPii(cls: Classes, s: string, i: nat, m: nat, j: nat)
    requires cls.Valid() && RcParts(cls, s, i, m, j)
    ensures i < j <= |s| && Pii(cls, s[i..j])
  {
    PlainPii(cls, s, i, j, i, j - 1);
  }

  lemma PhoneIsPii(cls: Classes, s: string, i: nat, a: nat, b: nat, c: nat, d: nat, j: nat)
    requires cls.Valid() && PhoneParts(cls, s, i, a, b, c, d, j)
    ensures i < j <= |s| && Pii(cls, s[i..j])
  {
    AreaOrder(cls, s, a, b);
    CountryPlain(cls, s, i, a);
    AreaPlain(cls, s, a, b);
    PhoneTailPlain(cls, s, b, c, d, j);
    PlainPii(cls, s, i, j, b, j - 1);
  }

  lemma AreaOrder(cls: Classes, s: string, a: nat, b: nat)
    requires AreaCode(cls, s, a, b)
    ensures a <= b
  {
  }

  lemma PhoneTailPlain(cls: Classes, s: string, b: nat, c: nat, d: nat, j: nat)
    requires cls.Valid()
    requires RunOf(cls.digit, s, b, b + 3) && OptSep(PHONE_SEPS, s, b + 3, c)
    requires RunOf(cls.digit, s, c, c + 3) && OptSep(PHONE_SEPS, s, c + 3, d)
    requires RunOf(cls.digit, s, d, j)
    ensures Plain(s, b, j)
  {
  }

  lemma EmailIsPii(cls: Classes, s: string, i: nat, a: nat, b: nat, j: nat)
    requires EmailParts(s, i, a, b, j)
    ensures i < j <= |s| && Pii(cls, s[i..j])
  {
    assert Plain(s, i, j);
    assert s[i..j][a - i] == '@';
  }

  lemma CountryPlain(cls: Classes, s: string, i: nat, a: nat)
    requires cls.Valid() && CountryCode(cls, s, i, a) && i <= |s|
    ensures Plain(s, i, a)
  {
  }

  lemma AreaPlain(cls: Classes, s: string, a: nat, b: nat)
    requires cls.Valid() && AreaCode(cls, s, a, b) && a <= |s|
    ensures Plain(s, a, b)
  {
  }

  lemma CardIsPii(cls: Classes, s: string, i: nat, j: nat, cuts: seq<nat>)
    requires cls.Valid() && CardParts(cls, s, i, j, cuts)
    ensures i < j <= |s| && Pii(cls, s[i..j])
  {
    forall k | 0 <= k < |cuts| - 1
      ensures cuts[k] < cuts[k + 1] && Plain(s, cuts[k], cuts[k + 1])
    {
      NextCut(cls, s, i, j, cuts, k);
    }
    CutsCover(s, cuts, |cuts| - 1);
    CutsCover(s, cuts, 12);
    CutsRise(cls, s, i, j, cuts, 13);
    assert OptSep({' ', '-'}, s, cuts[12] + 1, cuts[13]);
    PlainPii(cls, s, i, j, i, cuts[12]);
  }

  lemma {:induction false} CutsRise(cls: Classes, s: string, i: nat, j: nat, cuts: seq<nat>, k: nat)
    requires CardParts(cls, s, i, j, cuts) && k < |cuts|
    ensures cuts[k] <= j
    decreases |cuts| - k
  {
    if k < |cuts| - 1 {
      CutsRise(cls, s, i, j, cuts, k + 1);
      assert OptSep({' ', '-'}, s, cuts[k] + 1, cuts[k + 1]);
    }
  }

  /** Each cut comes after the one before, with plain text in between. */
  ghost predicate Linked(s: string, cuts: seq<nat>) {
    forall k :: 0 <= k < |cuts| - 1 ==> cuts[k] < cuts[k + 1] && Plain(s, cuts[k], cuts[k + 1])
  }

  lemma {:induction false} CutsCover(s: string, cuts: seq<nat>, k: nat)
    requires Linked(s, cuts) && k < |cuts| && cuts[0] <= |s|
    ensures cuts[0] + k <= cuts[k] && Plain(s, cuts[0], cuts[k])
  {
    if k > 0 {
      CutsCover(s, cuts, k - 1);
      PlainJoins(s, cuts[0], cuts[k - 1], cuts[k]);
    }
  }

  lemma NextCut(cls: Classes, s: string, i: nat, j: nat, cuts: seq<nat>, k: nat)
    requires cls.Valid() && CardParts(cls, s, i, j, cuts) && k < |cuts| - 1
    ensures cuts[k] < cuts[k + 1] && Plain(s, cuts[k], cuts[k + 1])
  {
    assert OptSep({' ', '-'}, s, cuts[k] + 1, cuts[k + 1]);
  }

  lemma PlainJoins(s: string, a: nat, b: nat, c: nat)
    requires Plain(s, a, b) && Plain(s, b, c)
    ensures Plain(s, a, c)
  {
  }
}
