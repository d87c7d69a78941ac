/**
 Paragraph-packing text chunker (`chunk_text`) with overlap between consecutive chunks and
 a character hard split for paragraphs that exceed the chunk size.

 Token counts are the character heuristic the code falls back to without an encoder.
 */
module Chunker {
  import opened Options
  import opened Text

  datatype Chunk = Chunk(index: nat, text: string, tokens: nat)

  function CountTokens(text: string): nat {
    if |text| / 4 > 1 then |text| / 4 else 1
  }

  const SEPARATOR := "\n\n"

  function Join(parts: seq<string>): string {
    if parts == [] then "" else if |parts| == 1 then parts[0] else parts[0] + SEPARATOR + Join(parts[1..])
  }

  function Min(a: int, b: int): int { if a < b then a else b }

  /** The last n characters, or the whole text when it is shorter. */
  function LastChars(text: string, n: nat): string { text[|text| - Min(n, |text|)..] }

  /** The text without its first n characters. */
  function DropChars(text: string, n: nat): string { text[Min(n, |text|)..] }

  // ---------------------------------------------------------------- paragraphs

  /** Python's `str.split` on the separator. */
  function Split(text: string): (parts: seq<string>)
    ensures |parts| > 0
  {
    if text == "" then [""]
    else if SEPARATOR <= text then [""] + Split(text[2..])
    else
      var rest := Split(text[1..]);
      [[text[0]] + rest[0]] + rest[1..]
  }

  function NonBlank(space: char -> bool, parts: seq<string>): seq<string> {
    if parts == [] then []
    else
      var init, last := parts[..|parts| - 1], Strip(space, parts[|parts| - 1]);
      if last != "" then NonBlank(space, init) + [last] else NonBlank(space, init)
  }

  function Paragraphs(space: char -> bool, text: string): seq<string> {
    NonBlank(space, Split(text))
  }

  // ---------------------------------------------------------------- one run of the chunker

  datatype Config = Config(size: nat, overlap: nat) {
    /** The hard split advances; otherwise it raises (a step of zero) or makes no window at all. */
    predicate Advances() { overlap < size }
    function Stride(): nat { 4 * size }
    function Back(): nat { 4 * overlap }
  }

  datatype State = State(chunks: seq<Chunk>, current: seq<string>, tokens: nat)

  function Flush(cfg: Config, st: State): State {
    if st.current == [] then st
    else
      var body := Join(st.current);
      var chunks := st.chunks + [Chunk(|st.chunks|, body, st.tokens)];
      if cfg.overlap > 0 then
        State(chunks, [LastChars(body, cfg.Back())], CountTokens(LastChars(body, cfg.Back())))
      else State(chunks, [], 0)
  }

  /** The windows of the hard split from position i on. */
  function Windows(cfg: Config, para: string, i: nat): seq<string>
    decreases |para| - i
  {
    if i >= |para| || !cfg.Advances() then []
    else [para[i..Min(i + cfg.Stride(), |para|)]] + Windows(cfg, para, i + cfg.Stride() - cfg.Back())
  }

  function AddPieces(chunks: seq<Chunk>, pieces: seq<string>): seq<Chunk>
    decreases pieces
  {
    if pieces == [] then chunks
    else AddPieces(chunks + [Chunk(|chunks|, pieces[0], CountTokens(pieces[0]))], pieces[1..])
  }

  function Step(cfg: Config, st: State, para: string): State
  {
    if CountTokens(para) > cfg.size then State(AddPieces(st.chunks, Windows(cfg, para, 0)), [], 0)
    else
      var st' := if st.tokens + CountTokens(para) > cfg.size then Flush(cfg, st) else st;
      State(st'.chunks, st'.current + [para], st'.tokens + CountTokens(para))
  }

  function Run(cfg: Config, st: State, paras: seq<string>): State
    decreases paras
  {
    if paras == [] then st else Run(cfg, Step(cfg, st, paras[0]), paras[1..])
  }

  function ChunkParagraphs(cfg: Config, paras: seq<string>): seq<Chunk>
  {
    Flush(cfg, Run(cfg, State([], [], 0), paras)).chunks
  }

  /** A step of zero makes `range` raise, as soon as there is an oversize paragraph. */
  predicate Raises(cfg: Config, paras: seq<string>) {
    cfg.overlap == cfg.size && exists k :: 0 <= k < |paras| && !Fits(cfg, paras[k])
  }

  function Chunks(space: char -> bool, cfg: Config, text: string): seq<Chunk>
  {
    ChunkParagraphs(cfg, Paragraphs(space, text))
  }

  /** The variables of `chunk_text` that its nested `flush` rebinds. */
  class Builder {
    var chunks: seq<Chunk>
    var current: seq<string>
    var currentTokens: nat
    var idx: nat
    const cfg: Config

    predicate Valid() reads this { idx == |chunks| }
    function St(): State reads this { State(chunks, current, currentTokens) }

    constructor (cfg: Config)
      ensures Valid() && this.cfg == cfg && St() == State([], [], 0)
    {
      this.cfg := cfg;
      chunks, current, currentTokens, idx := [], [], 0, 0;
    }

    method FlushCurrent()
      requires Valid()
      modifies this
      ensures Valid() && St() == Flush(cfg, old(St()))
    {
      if current == [] {
        return;
      }
      var body := Join(current);
      chunks := chunks + [Chunk(idx, body, currentTokens)];
      idx := idx + 1;
      if cfg.overlap > 0 && chunks != [] {
        var tail := LastChars(body, cfg.overlap * 4);
        current := [tail];
        currentTokens := CountTokens(tail);
      } else {
        current := [];
        currentTokens := 0;
      }
    }

    /** One paragraph; false when its hard split raises. */
    method Add(para: string) returns (ok: bool)
      requires Valid()
      modifies this
      ensures Valid() && ok == !Raises(cfg, [para]) && (ok ==> St() == Step(cfg, old(St()), para))
    {
      assert [para][0] == para;
      ok := true;
      var ptok := CountTokens(para);
      if ptok > cfg.size {
        var stride := cfg.size * 4;
        var step := stride - (if cfg.overlap > 0 then cfg.overlap * 4 else 0);
        if step == 0 {
          return false;
        }
        var i := 0;
        while step > 0 && i < |para|
          invariant Valid()
          invariant AddPieces(chunks, Windows(cfg, para, i)) == AddPieces(old(chunks), Windows(cfg, para, 0))
          decreases |para| - i
        {
          var piece := para[i..Min(i + stride, |para|)];
          chunks := chunks + [Chunk(idx, piece, CountTokens(piece))];
          idx := idx + 1;
          i := i + step;
        }
        current := [];
        currentTokens := 0;
        return;
      }
      if currentTokens + ptok > cfg.size {
        FlushCurrent();
      }
      current := current + [para];
      currentTokens := currentTokens + ptok;
    }
  }

  /** `chunk_text`: absent arguments fall back to the settings, and so does a
      chunk size of zero; None when it raises. */
  method ChunkText(space: char -> bool, text: string, chunkSize: Option<nat>, overlap: Option<nat>, settings: Config)
    returns (r: Option<seq<Chunk>>)
    ensures var cfg := Effective(chunkSize, overlap, settings);
            r == if Raises(cfg, Paragraphs(space, text)) then None else Some(Chunks(space, cfg, text))
    ensures var cfg := Effective(chunkSize, overlap, settings);
            r.Some? && NoneDropped(cfg, Paragraphs(space, text)) ==> AllFound(space, cfg, text, TextsOf(r.value))
  {
    ghost var cfg := Effective(chunkSize, overlap, settings);
    if NoneDropped(cfg, Paragraphs(space, text)) { PartsAreFound(space, cfg, text); }
    if Strip(space, text) == "" {
      BlankHasNoParagraphs(space, text);
      return Some([]);
    }
    var paras := Paragraphs(space, text);
    var builder := new Builder(Effective(chunkSize, overlap, settings));
    for k := 0 to |paras|
      invariant builder.Valid() && !Raises(builder.cfg, paras[..k])
      invariant Run(builder.cfg, builder.St(), paras[k..]) == Run(builder.cfg, State([], [], 0), paras)
    {
      var ok := builder.Add(paras[k]);
      RaisesAtLast(builder.cfg, paras, k);
      if !ok {
        return None;
      }
    }
    assert paras[..|paras|] == paras;
    builder.FlushCurrent();
    r := Some(builder.chunks);
  }

  lemma RaisesAtLast(cfg: Config, paras: seq<string>, k: nat)
    requires k < |paras|
    ensures Raises(cfg, paras[..k + 1]) <==> Raises(cfg, paras[..k]) || Raises(cfg, [paras[k]])
    ensures Raises(cfg, paras[..k + 1]) ==> Raises(cfg, paras)
  {
    assert paras[..k + 1] == paras[..k] + [paras[k]];
    if Raises(cfg, [paras[k]]) { assert !Fits(cfg, paras[..k + 1][k]) && !Fits(cfg, paras[k]); }
    if Raises(cfg, paras[..k]) {
      var j :| 0 <= j < k && !Fits(cfg, paras[..k][j]);
      assert !Fits(cfg, paras[..k + 1][j]) && !Fits(cfg, paras[j]);
    }
  }

  function Effective(chunkSize: Option<nat>, overlap: Option<nat>, settings: Config): Config {
    Config(if chunkSize.Some? && chunkSize.value != 0 then chunkSize.value else settings.size,
           if overlap.Some? then overlap.value else settings.overlap)
  }

  lemma {:induction false} StripEmpty(space: char -> bool, text: string)
    ensures Strip(space, text) == "" <==> AllSpace(space, text)
  {
    if text != "" {
      if space(text[0]) { StripEmpty(space, text[1..]); }
      else if space(text[|text| - 1]) { StripEmpty(space, text[..|text| - 1]); }
    }
  }

  lemma {:induction false} SplitKeepsSpace(space: char -> bool, text: string)
    requires AllSpace(space, text)
    ensures forall k :: 0 <= k < |Split(text)| ==> AllSpace(space, Split(text)[k])
  {
    if text != "" {
      if SEPARATOR <= text { SplitKeepsSpace(space, text[2..]); } else { SplitKeepsSpace(space, text[1..]); }
    }
  }

  lemma {:induction false} NonBlankEmpty(space: char -> bool, parts: seq<string>)
    requires forall k :: 0 <= k < |parts| ==> AllSpace(space, parts[k])
    ensures NonBlank(space, parts) == []
  {
    if parts != [] {
      StripEmpty(space, parts[|parts| - 1]);
      NonBlankEmpty(space, parts[..|parts| - 1]);
    }
  }

  lemma BlankHasNoParagraphs(space: char -> bool, text: string)
    requires Strip(space, text) == ""
    ensures Paragraphs(space, text) == []
  {
    StripEmpty(space, text);
    SplitKeepsSpace(space, text);
    NonBlankEmpty(space, Split(text));
  }

  // ---------------------------------------------------------------- from the text to its paragraphs

  /** An absent size, or one of zero, and an absent overlap come from the settings; an overlap of zero counts. */
  lemma DefaultsApply(settings: Config, size: nat, overlap: nat)
    requires size > 0
    ensures Effective(None, None, settings) == settings
    ensures Effective(Some(0), Some(overlap), settings) == Config(settings.size, overlap)
    ensures Effective(Some(size), Some(overlap), settings) == Config(size, overlap)
    ensures Effective(Some(size), None, settings) == Config(size, settings.overlap)
  {
  }

  /** The heuristic count: four characters a token, rounded down, and at least one. */
  lemma CountIs(text: string, n: nat)
    ensures n == CountTokens(text) <==> n >= 1 && (n == 1 || 4 * n <= |text|) && |text| < 4 * (n + 1)
  {
  }

  lemma {:induction false} FirstPartIsPrefix(text: string)
    ensures Split(text)[0] <= text
    ensures Split(text)[0] == text || "\n\n" <= text[|Split(text)[0]|..]
  {
    if text != "" && !(SEPARATOR <= text) { FirstPartIsPrefix(text[1..]); }
  }

  predicate HasSeparator(text: string) { exists i :: 0 <= i < |text| - 1 && text[i] == text[i + 1] == '\n' }

  /** No part holds the separator. */
  lemma {:induction false} PartsHaveNoSeparator(text: string)
    ensures forall k :: 0 <= k < |Split(text)| ==> !HasSeparator(Split(text)[k])
  {
    if text != "" {
      if SEPARATOR <= text {
        PartsHaveNoSeparator(text[2..]);
      } else {
        var rest := Split(text[1..]);
        PartsHaveNoSeparator(text[1..]);
        FirstPartIsPrefix(text[1..]);
        NoNewSeparator(text, rest[0]);
        assert forall k :: 1 <= k < |Split(text)| ==> Split(text)[k] == rest[k];
      }
    }
  }

  lemma NoNewSeparator(text: string, first: string)
    requires text != "" && !(SEPARATOR <= text) && first <= text[1..] && !HasSeparator(first)
    ensures !HasSeparator([text[0]] + first)
  {
    var longer := [text[0]] + first;
    forall i | 0 <= i < |longer| - 1
      ensures !(longer[i] == longer[i + 1] == '\n')
    {
      assert longer[i + 1] == first[i] && first[0] == text[1];
      assert i > 0 ==> longer[i] == first[i - 1];
      StartsWithSeparator(text);
    }
  }

  lemma StartsWithSeparator(text: string)
    requires |text| > 1
    ensures SEPARATOR <= text <==> text[0] == text[1] == '\n'
  {
  }

  predicate Rising(places: seq<nat>) { forall j, k :: 0 <= j < k < |places| ==> places[j] < places[k] }

  predicate HasPlace(places: seq<nat>, i: nat) { exists k :: 0 <= k < |places| && places[k] == i }

  /** The places among the parts of those that are not blank. */
  ghost predicate PlacesOf(space: char -> bool, parts: seq<string>, paras: seq<string>, places: seq<nat>) {
    && Rising(places) && |places| == |paras|
    && (forall k :: 0 <= k < |places| ==> places[k] < |parts| && paras[k] == Strip(space, parts[places[k]]) != "")
    && (forall i: nat :: i < |parts| && Strip(space, parts[i]) != "" ==> HasPlace(places, i))
  }

  lemma PlacesGrow(space: char -> bool, parts: seq<string>, part: string, paras: seq<string>, places: seq<nat>)
    requires PlacesOf(space, parts, paras, places)
    ensures if Strip(space, part) != ""
            then PlacesOf(space, parts + [part], paras + [Strip(space, part)], places + [|parts|])
            else PlacesOf(space, parts + [part], paras, places)
  {
    if Strip(space, part) != "" {
      var longer := places + [|parts|];
      assert longer[|places|] == |parts|;
      forall i: nat | HasPlace(places, i)
        ensures HasPlace(longer, i)
      {
        var k :| 0 <= k < |places| && places[k] == i;
        assert longer[k] == i;
      }
    }
  }

  lemma {:induction false} NonBlankPlaces(space: char -> bool, parts: seq<string>) returns (places: seq<nat>)
    ensures PlacesOf(space, parts, NonBlank(space, parts), places)
  {
    places := [];
    if parts != [] {
      var init, last := parts[..|parts| - 1], parts[|parts| - 1];
      places := NonBlankPlaces(space, init);
      PlacesGrow(space, init, last, NonBlank(space, init), places);
      assert parts == init + [last];
      if Strip(space, last) != "" { places := places + [|init|]; }
    }
  }

  /** The paragraphs are exactly the parts that are not blank, stripped, in order. */
  lemma ParagraphsAre(space: char -> bool, text: string) returns (places: seq<nat>)
    ensures PlacesOf(space, Split(text), Paragraphs(space, text), places)
  {
    places := NonBlankPlaces(space, Split(text));
  }

  /** Every part of the text that is not blank is found in the chunk texts. */
  ghost predicate AllFound(space: char -> bool, cfg: Config, text: string, texts: seq<string>) {
    forall i :: 0 <= i < |Split(text)| && Strip(space, Split(text)[i]) != "" ==>
      IsFound(cfg, texts, Strip(space, Split(text)[i]))
  }

  ghost predicate IsFound(cfg: Config, texts: seq<string>, para: string) {
    exists lo: nat, hi: nat :: FoundAt(cfg, texts, para, lo, hi)
  }

  /** When no paragraph is dropped, every part of the text that is not blank is found in the chunks of the text. */
  lemma PartsAreFound(space: char -> bool, cfg: Config, text: string)
    requires NoneDropped(cfg, Paragraphs(space, text))
    ensures AllFound(space, cfg, text, TextsOf(Chunks(space, cfg, text)))
  {
    var places := ParagraphsAre(space, text);
    forall i | 0 <= i < |Split(text)| && Strip(space, Split(text)[i]) != ""
      ensures IsFound(cfg, TextsOf(Chunks(space, cfg, text)), Strip(space, Split(text)[i]))
    {
      assert HasPlace(places, i);
      var k :| 0 <= k < |places| && places[k] == i;
      var lo, hi := ParagraphsAreFound(cfg, Paragraphs(space, text), k);
    }
  }

  lemma {:induction false} JoinIsSpace(space: char -> bool, parts: seq<string>)
    requires space('\n') && forall k :: 0 <= k < |parts| ==> AllSpace(space, parts[k])
    ensures AllSpace(space, Join(parts))
  {
    if |parts| > 1 { JoinIsSpace(space, parts[1..]); }
  }

  /** A text that is not blank has a paragraph. */
  lemma NonBlankHasParagraph(space: char -> bool, text: string)
    requires space('\n') && Strip(space, text) != ""
    ensures Paragraphs(space, text) != []
  {
    var parts := Split(text);
    if forall k :: 0 <= k < |parts| ==> AllSpace(space, parts[k]) {
      JoinIsSpace(space, parts);
      SplitRejoins(text);
      StripEmpty(space, text);
    } else {
      var k :| 0 <= k < |parts| && !AllSpace(space, parts[k]);
      StripEmpty(space, parts[k]);
      var places := ParagraphsAre(space, text);
      assert HasPlace(places, k);
    }
  }

  lemma {:induction false} RunIsNotEmpty(cfg: Config, st: State, paras: seq<string>)
    requires cfg.Advances() && forall k :: 0 <= k < |paras| ==> paras[k] != ""
    requires st.chunks != [] || st.current != [] || paras != []
    ensures var end := Run(cfg, st, paras); end.chunks != [] || end.current != []
    decreases paras
  {
    if paras != [] {
      AddedChunks(st.chunks, Windows(cfg, paras[0], 0));
      RunIsNotEmpty(cfg, Step(cfg, st, paras[0]), paras[1..]);
    }
  }

  lemma {:induction false} AddedChunks(chunks: seq<Chunk>, pieces: seq<string>)
    ensures |AddPieces(chunks, pieces)| == |chunks| + |pieces|
    decreases pieces
  {
    if pieces != [] { AddedChunks(chunks + [Chunk(|chunks|, pieces[0], CountTokens(pieces[0]))], pieces[1..]); }
  }

  /** A text that is not blank yields a chunk when the hard split advances. */
  lemma NonBlankYieldsChunk(space: char -> bool, cfg: Config, text: string)
    requires space('\n') && Strip(space, text) != "" && cfg.Advances()
    ensures Chunks(space, cfg, text) != []
  {
    var places := ParagraphsAre(space, text);
    NonBlankHasParagraph(space, text);
    RunIsNotEmpty(cfg, State([], [], 0), Paragraphs(space, text));
  }

  // ---------------------------------------------------------------- provenance

  /** Where chunks come from: a run of packed paragraphs (one chunk) or an oversize paragraph (its windows). */
  datatype Pack = Packed(paras: seq<string>) | Oversize(para: string)

  /** The overlap prefix a packed chunk inherits from what precedes it. */
  function Prefix(cfg: Config, packs: seq<Pack>): seq<string>
    decreases |packs|, 1
  {
    if cfg.overlap > 0 && packs != [] && packs[|packs| - 1].Packed?
    then [LastChars(BodyOf(cfg, packs), cfg.Back())] else []
  }

  /** The text of the last chunk, made of its overlap prefix and its own paragraphs. */
  function BodyOf(cfg: Config, packs: seq<Pack>): string
    requires packs != [] && packs[|packs| - 1].Packed?
    decreases |packs|, 0
  {
    Join(Prefix(cfg, packs[..|packs| - 1]) + packs[|packs| - 1].paras)
  }

  /** The chunk texts that a sequence of packs stands for. */
  function Texts(cfg: Config, packs: seq<Pack>): seq<string>
  {
    if packs == [] then []
    else Texts(cfg, packs[..|packs| - 1])
         + match packs[|packs| - 1]
           case Packed(_) => [BodyOf(cfg, packs)]
           case Oversize(para) => Windows(cfg, para, 0)
  }

  /** The paragraphs whose own text is in the chunks of the packs, in order. */
  function Contents(cfg: Config, packs: seq<Pack>): seq<string> {
    if packs == [] then []
    else Contents(cfg, packs[..|packs| - 1])
         + match packs[|packs| - 1]
           case Packed(paras) => paras
           case Oversize(para) => if cfg.Advances() then [para] else []
  }

  function TextsOf(chunks: seq<Chunk>): (texts: seq<string>)
    ensures |texts| == |chunks| && forall k :: 0 <= k < |chunks| ==> texts[k] == chunks[k].text
  {
    seq(|chunks|, k requires 0 <= k < |chunks| => chunks[k].text)
  }

  predicate Fits(cfg: Config, para: string) { CountTokens(para) <= cfg.size }

  /** Bounds on a chunk: the token count, and the characters behind it. */
  predicate Bounded(cfg: Config, chunk: Chunk) {
    chunk.tokens <= cfg.size + cfg.overlap && |chunk.text| <= 9 * chunk.tokens
  }

  function Sum(parts: seq<string>): nat {
    if parts == [] then 0 else CountTokens(parts[0]) + Sum(parts[1..])
  }

  /** The chunker's state, explained by packs and the paragraphs pending since the last chunk. */
  ghost predicate Explains(cfg: Config, st: State, packs: seq<Pack>, pending: seq<string>) {
    && TextsOf(st.chunks) == Texts(cfg, packs)
    && (forall k :: 0 <= k < |st.chunks| ==> st.chunks[k].index == k && Bounded(cfg, st.chunks[k]))
    && (forall k :: 0 <= k < |packs| ==> packs[k].Packed? ==> packs[k].paras != [])
    && (if pending == [] then st.current == [] && st.tokens == 0 && Prefix(cfg, packs) == []
        else st.current == Prefix(cfg, packs) + pending && st.tokens == Sum(st.current) <= cfg.size + cfg.overlap)
  }

  /** Provenance of a run: the packs so far and the paragraphs pending since the last chunk. */
  datatype Packing = Packing(packs: seq<Pack>, pending: seq<string>)

  /** An oversize paragraph is split at once and discards what is pending; a fitting one closes
      the pending run first when it would push the run over the chunk size. */
  function PackOne(cfg: Config, p: Packing, para: string): Packing
  {
    if !Fits(cfg, para) then Packing(p.packs + [Oversize(para)], [])
    else if p.pending != [] && Sum(Prefix(cfg, p.packs) + p.pending) + CountTokens(para) > cfg.size
    then Packing(p.packs + [Packed(p.pending)], [para])
    else if p.pending == [] then Packing(p.packs, [para])
    else Packing(p.packs, p.pending + [para])
  }

  function PackAll(cfg: Config, p: Packing, paras: seq<string>): Packing
    decreases paras
  {
    if paras == [] then p else PackAll(cfg, PackOne(cfg, p, paras[0]), paras[1..])
  }

  function Close(p: Packing): seq<Pack> {
    if p.pending == [] then p.packs else p.packs + [Packed(p.pending)]
  }

  /** The packs behind the chunks of a list of paragraphs. */
  function PackUp(cfg: Config, paras: seq<string>): seq<Pack>
  {
    Close(PackAll(cfg, Packing([], []), paras))
  }

  // ---------------------------------------------------------------- text arithmetic

  lemma {:induction false} SumAppend(a: seq<string>, b: seq<string>)
    ensures Sum(a + b) == Sum(a) + Sum(b)
  {
    if a == [] { assert a + b == b; } else { assert (a + b)[1..] == a[1..] + b; SumAppend(a[1..], b); }
  }

  lemma {:induction false} JoinAppend(a: seq<string>, b: seq<string>)
    requires a != [] && b != []
    ensures Join(a + b) == Join(a) + SEPARATOR + Join(b)
  {
    assert (a + b)[1..] == a[1..] + b;
    if |a| > 1 {
      JoinAppend(a[1..], b);
      assert a[0] + SEPARATOR + (Join(a[1..]) + SEPARATOR + Join(b))
               == a[0] + SEPARATOR + Join(a[1..]) + SEPARATOR + Join(b);
    }
  }

  /** Each part costs at most 9 characters a token, its separator included. */
  lemma {:induction false} JoinLength(parts: seq<string>)
    requires parts != []
    ensures |Join(parts)| + 2 <= 9 * Sum(parts)
  {
    assert |parts[0]| + 2 <= 9 * CountTokens(parts[0]);
    if |parts| > 1 { JoinLength(parts[1..]); }
  }

  lemma PieceBounded(cfg: Config, index: nat, piece: string)
    requires 0 < |piece| <= cfg.Stride()
    ensures Bounded(cfg, Chunk(index, piece, CountTokens(piece)))
  {
    assert CountTokens(piece) <= cfg.size && |piece| <= 9 * CountTokens(piece);
  }

  lemma {:induction false} PiecesAdded(cfg: Config, chunks: seq<Chunk>, pieces: seq<string>)
    requires forall k :: 0 <= k < |chunks| ==> chunks[k].index == k && Bounded(cfg, chunks[k])
    requires forall k :: 0 <= k < |pieces| ==> 0 < |pieces[k]| <= cfg.Stride()
    ensures TextsOf(AddPieces(chunks, pieces)) == TextsOf(chunks) + pieces
    ensures forall k {:trigger AddPieces(chunks, pieces)[k]} :: 0 <= k < |AddPieces(chunks, pieces)| ==>
              AddPieces(chunks, pieces)[k].index == k && Bounded(cfg, AddPieces(chunks, pieces)[k])
    decreases pieces
  {
    if pieces != [] {
      var next := chunks + [Chunk(|chunks|, pieces[0], CountTokens(pieces[0]))];
      PieceBounded(cfg, |chunks|, pieces[0]);
      PiecesAdded(cfg, next, pieces[1..]);
      assert TextsOf(next) == TextsOf(chunks) + [pieces[0]];
      assert TextsOf(chunks) + pieces == TextsOf(next) + pieces[1..];
    }
  }

  lemma {:induction false} WindowsFit(cfg: Config, para: string, i: nat)
    ensures forall k :: 0 <= k < |Windows(cfg, para, i)| ==> 0 < |Windows(cfg, para, i)[k]| <= cfg.Stride()
    decreases |para| - i
  {
    if i < |para| && cfg.Advances() { WindowsFit(cfg, para, i + cfg.Stride() - cfg.Back()); }
  }

  // ---------------------------------------------------------------- the run is what the packs say

  /** A tail of 4*overlap characters counts at most `overlap` tokens. */
  lemma TailTokens(cfg: Config, body: string)
    requires cfg.overlap > 0
    ensures CountTokens(LastChars(body, cfg.Back())) <= cfg.overlap
  {
    var n := |LastChars(body, cfg.Back())|;
    assert n <= 4 * cfg.overlap;
    assert n / 4 <= cfg.overlap;
  }

  /** One more packed run is one more text. */
  lemma TextsPacked(cfg: Config, packs: seq<Pack>, paras: seq<string>)
    ensures BodyOf(cfg, packs + [Packed(paras)]) == Join(Prefix(cfg, packs) + paras)
    ensures Texts(cfg, packs + [Packed(paras)]) == Texts(cfg, packs) + [Join(Prefix(cfg, packs) + paras)]
  {
    assert (packs + [Packed(paras)])[..|packs|] == packs;
  }

  /** What a flush leaves pending is the overlap prefix of the next chunk. */
  lemma FlushedTail(cfg: Config, st: State, p: Packing)
    requires p.pending != [] && st.current == Prefix(cfg, p.packs) + p.pending
    ensures var st' := Flush(cfg, st);
            st'.current == Prefix(cfg, p.packs + [Packed(p.pending)]) && st'.tokens == Sum(st'.current) <= cfg.overlap
  {
    TextsPacked(cfg, p.packs, p.pending);
    if cfg.overlap > 0 { TailTokens(cfg, Join(st.current)); }
  }

  /** The chunk a flush adds is numbered next and within the bounds. */
  lemma FlushedChunk(cfg: Config, st: State)
    requires st.current != [] && st.tokens == Sum(st.current) <= cfg.size + cfg.overlap
    ensures Flush(cfg, st).chunks == st.chunks + [Chunk(|st.chunks|, Join(st.current), st.tokens)]
    ensures Bounded(cfg, Chunk(|st.chunks|, Join(st.current), st.tokens))
  {
    JoinLength(st.current);
  }

  lemma FlushExplained(cfg: Config, st: State, p: Packing)
    requires Explains(cfg, st, p.packs, p.pending) && p.pending != []
    ensures var st' := Flush(cfg, st);
            var packs := p.packs + [Packed(p.pending)];
            && TextsOf(st'.chunks) == Texts(cfg, packs)
            && (forall k :: 0 <= k < |st'.chunks| ==> st'.chunks[k].index == k && Bounded(cfg, st'.chunks[k]))
            && st'.current == Prefix(cfg, packs) && st'.tokens == Sum(st'.current) <= cfg.overlap
  {
    FlushedTail(cfg, st, p);
    FlushedChunk(cfg, st);
    TextsPacked(cfg, p.packs, p.pending);
    assert TextsOf(Flush(cfg, st).chunks) == TextsOf(st.chunks) + [Join(st.current)];
  }

  lemma OversizeExplained(cfg: Config, st: State, p: Packing, para: string)
    requires Explains(cfg, st, p.packs, p.pending) && !Fits(cfg, para)
    ensures Explains(cfg, Step(cfg, st, para), p.packs + [Oversize(para)], [])
  {
    WindowsFit(cfg, para, 0);
    PiecesAdded(cfg, st.chunks, Windows(cfg, para, 0));
    var packs := p.packs + [Oversize(para)];
    assert packs[..|packs| - 1] == p.packs;
    assert Texts(cfg, packs) == Texts(cfg, p.packs) + Windows(cfg, para, 0);
  }

  /** A fitting paragraph that starts a new run after the pending one is flushed. */
  lemma FlushingStep(cfg: Config, st: State, p: Packing, para: string)
    requires Explains(cfg, st, p.packs, p.pending) && p.pending != []
    requires Fits(cfg, para) && st.tokens + CountTokens(para) > cfg.size
    ensures Explains(cfg, Step(cfg, st, para), p.packs + [Packed(p.pending)], [para])
  {
    FlushExplained(cfg, st, p);
    SumLast(Flush(cfg, st).current, para);
  }

  /** A fitting paragraph that joins what is pending. */
  lemma JoiningStep(cfg: Config, st: State, p: Packing, para: string)
    requires Explains(cfg, st, p.packs, p.pending)
    requires Fits(cfg, para) && st.tokens + CountTokens(para) <= cfg.size
    ensures Explains(cfg, Step(cfg, st, para), p.packs, p.pending + [para])
  {
    SumLast(st.current, para);
    assert p.pending != [] ==> st.current + [para] == Prefix(cfg, p.packs) + (p.pending + [para]);
  }

  lemma SumLast(parts: seq<string>, para: string)
    ensures Sum(parts + [para]) == Sum(parts) + CountTokens(para)
  {
    SumAppend(parts, [para]);
    assert Sum([para]) == CountTokens(para) + Sum([]);
  }

  lemma StepExplained(cfg: Config, st: State, p: Packing, para: string)
    requires Explains(cfg, st, p.packs, p.pending)
    ensures var p' := PackOne(cfg, p, para); Explains(cfg, Step(cfg, st, para), p'.packs, p'.pending)
  {
    if !Fits(cfg, para) {
      OversizeExplained(cfg, st, p, para);
    } else if p.pending != [] && st.tokens + CountTokens(para) > cfg.size {
      FlushingStep(cfg, st, p, para);
    } else {
      JoiningStep(cfg, st, p, para);
    }
  }

  lemma {:induction false} RunExplained(cfg: Config, st: State, p: Packing, paras: seq<string>)
    requires Explains(cfg, st, p.packs, p.pending)
    ensures var p' := PackAll(cfg, p, paras); Explains(cfg, Run(cfg, st, paras), p'.packs, p'.pending)
    decreases paras
  {
    if paras != [] {
      StepExplained(cfg, st, p, paras[0]);
      RunExplained(cfg, Step(cfg, st, paras[0]), PackOne(cfg, p, paras[0]), paras[1..]);
    }
  }

  /** The chunks are exactly the rendering of the packs, numbered from zero, within the token
      and character bounds, and no chunk consists of overlap only. */
  lemma ChunksArePacks(cfg: Config, paras: seq<string>)
    ensures var chunks, packs := ChunkParagraphs(cfg, paras), PackUp(cfg, paras);
            && TextsOf(chunks) == Texts(cfg, packs)
            && (forall k :: 0 <= k < |chunks| ==>
                 chunks[k].index == k && chunks[k].tokens <= cfg.size + cfg.overlap
                   && |chunks[k].text| <= 9 * chunks[k].tokens)
            && forall k :: 0 <= k < |packs| ==> packs[k].Packed? ==> packs[k].paras != []
  {
    var p := PackAll(cfg, Packing([], []), paras);
    RunExplained(cfg, State([], [], 0), Packing([], []), paras);
    if p.pending != [] {
      FlushExplained(cfg, Run(cfg, State([], [], 0), paras), p);
    }
  }

  // ---------------------------------------------------------------- reconstruction

  /** The part of a packed chunk after the overlap it inherits from the previous chunk. */
  function Own(cfg: Config, prev: string, text: string): string {
    if cfg.overlap > 0 then DropChars(text, Min(cfg.Back(), |prev|) + |SEPARATOR|) else text
  }

  /** Chunk texts without their overlap prefixes, joined again. */
  function Rejoin(cfg: Config, texts: seq<string>): string {
    if texts == [] then ""
    else if |texts| == 1 then texts[0]
    else Rejoin(cfg, texts[..|texts| - 1]) + SEPARATOR + Own(cfg, texts[|texts| - 2], texts[|texts| - 1])
  }

  predicate AllPacked(packs: seq<Pack>) {
    forall k :: 0 <= k < |packs| ==> packs[k].Packed? && packs[k].paras != []
  }

  lemma {:induction false} PackedRejoin(cfg: Config, packs: seq<Pack>)
    requires AllPacked(packs)
    ensures |Texts(cfg, packs)| == |packs| && Rejoin(cfg, Texts(cfg, packs)) == Join(Contents(cfg, packs))
    ensures packs != [] ==> Contents(cfg, packs) != [] && Texts(cfg, packs)[|packs| - 1] == BodyOf(cfg, packs)
  {
    if packs != [] {
      var init, paras := packs[..|packs| - 1], packs[|packs| - 1].paras;
      PackedRejoin(cfg, init);
      var texts := Texts(cfg, packs);
      assert texts[..|texts| - 1] == Texts(cfg, init);
      if init != [] {
        JoinAppend(Contents(cfg, init), paras);
        OwnIsJoin(cfg, init, paras);
      } else {
        assert Prefix(cfg, init) + paras == paras;
      }
    }
  }

  lemma OwnIsJoin(cfg: Config, init: seq<Pack>, paras: seq<string>)
    requires AllPacked(init) && init != [] && paras != []
    ensures Own(cfg, BodyOf(cfg, init), Join(Prefix(cfg, init) + paras)) == Join(paras)
  {
    if cfg.overlap > 0 {
      JoinAppend(Prefix(cfg, init), paras);
      var tail := LastChars(BodyOf(cfg, init), cfg.Back());
      assert |tail| == Min(cfg.Back(), |BodyOf(cfg, init)|);
      assert (tail + SEPARATOR + Join(paras))[|tail| + 2..] == Join(paras);
    } else {
      assert Prefix(cfg, init) + paras == paras;
    }
  }

  /** What a packing holds in terms of the paragraphs read so far. */
  ghost predicate Tracks(cfg: Config, p: Packing, before: seq<string>) {
    var held := Contents(cfg, p.packs) + p.pending;
    && (p.pending != [] <==> before != [] && Fits(cfg, before[|before| - 1]))
    && |held| <= |before|
    && (if NoneDropped(cfg, before) then held == before else |held| < |before|)
  }

  lemma TracksOne(cfg: Config, p: Packing, before: seq<string>, para: string)
    requires Tracks(cfg, p, before)
    ensures Tracks(cfg, PackOne(cfg, p, para), before + [para])
  {
    PackOneContents(cfg, p, para);
    DroppedOne(cfg, before, para);
    if p.pending == [] {
      assert Contents(cfg, p.packs) + [] == Contents(cfg, p.packs);
    }
  }

  lemma MoveHead(a: seq<string>, b: seq<string>)
    requires b != []
    ensures (a + [b[0]]) + b[1..] == a + b
  {
  }

  lemma {:induction false} TracksAll(cfg: Config, p: Packing, before: seq<string>, paras: seq<string>)
    requires Tracks(cfg, p, before)
    ensures Tracks(cfg, PackAll(cfg, p, paras), before + paras)
    decreases paras
  {
    if paras == [] {
      assert before + paras == before;
    } else {
      TracksOne(cfg, p, before, paras[0]);
      TracksAll(cfg, PackOne(cfg, p, paras[0]), before + [paras[0]], paras[1..]);
      MoveHead(before, paras);
    }
  }

  lemma {:induction false} FittingArePacked(cfg: Config, p: Packing, paras: seq<string>)
    requires forall k :: 0 <= k < |paras| ==> Fits(cfg, paras[k])
    requires AllPacked(p.packs)
    ensures AllPacked(Close(PackAll(cfg, p, paras)))
    decreases paras
  {
    if paras != [] { FittingArePacked(cfg, PackOne(cfg, p, paras[0]), paras[1..]); }
  }

  lemma ContentsClose(cfg: Config, p: Packing)
    ensures Contents(cfg, Close(p)) == Contents(cfg, p.packs) + p.pending
  {
    if p.pending != [] { assert Close(p)[..|p.packs|] == p.packs; }
  }

  lemma PackOneContents(cfg: Config, p: Packing, para: string)
    ensures var p' := PackOne(cfg, p, para);
            Contents(cfg, p'.packs) + p'.pending ==
            if Fits(cfg, para) then Contents(cfg, p.packs) + p.pending + [para]
            else if cfg.Advances() then Contents(cfg, p.packs) + [para]
            else Contents(cfg, p.packs)
  {
    var p' := PackOne(cfg, p, para);
    if |p'.packs| > |p.packs| { assert p'.packs[..|p.packs|] == p.packs; }
  }

  /** No paragraph that fits stands directly before an oversize one. */
  predicate NoneStranded(cfg: Config, paras: seq<string>) {
    forall k :: 0 <= k < |paras| - 1 ==> Fits(cfg, paras[k]) ==> Fits(cfg, paras[k + 1])
  }

  /** Nor does an oversize one stand anywhere when the hard split does not advance. */
  predicate NoneDropped(cfg: Config, paras: seq<string>) {
    NoneStranded(cfg, paras) && (cfg.Advances() || forall k :: 0 <= k < |paras| ==> Fits(cfg, paras[k]))
  }

  lemma StrandedOne(cfg: Config, before: seq<string>, para: string)
    ensures NoneStranded(cfg, before + [para]) <==>
            NoneStranded(cfg, before) && (before != [] && Fits(cfg, before[|before| - 1]) ==> Fits(cfg, para))
  {
    var all := before + [para];
    if NoneStranded(cfg, all) {
      forall k | 0 <= k < |before| - 1 && Fits(cfg, before[k])
        ensures Fits(cfg, before[k + 1])
      {
        assert all[k] == before[k] && all[k + 1] == before[k + 1];
      }
      if before != [] { assert all[|before| - 1] == before[|before| - 1] && all[|before| - 1 + 1] == para; }
    }
  }

  lemma DroppedOne(cfg: Config, before: seq<string>, para: string)
    ensures NoneDropped(cfg, before + [para]) <==>
            && NoneDropped(cfg, before) && (cfg.Advances() || Fits(cfg, para))
            && (before != [] && Fits(cfg, before[|before| - 1]) ==> Fits(cfg, para))
  {
    StrandedOne(cfg, before, para);
    var all := before + [para];
    assert all[|before|] == para && forall k :: 0 <= k < |before| ==> all[k] == before[k];
    if NoneDropped(cfg, all) && !cfg.Advances() {
      assert forall k :: 0 <= k < |before| ==> Fits(cfg, all[k]);
    }
  }

  /** The chunks hold every paragraph exactly when no fitting paragraph stands directly before an
      oversize one (the hard split discards what is pending), and the hard split advances if there is any. */
  lemma NothingLost(cfg: Config, paras: seq<string>)
    ensures Contents(cfg, PackUp(cfg, paras)) == paras <==> NoneDropped(cfg, paras)
  {
    assert [] + paras == paras;
    TracksAll(cfg, Packing([], []), [], paras);
    ContentsClose(cfg, PackAll(cfg, Packing([], []), paras));
  }

  /** A paragraph of one letter before an oversize one is in no chunk. */
  lemma StrandedIsLost()
    ensures var chunks := ChunkParagraphs(Config(1, 0), ["a", "bbbbbbbb"]);
            chunks == [Chunk(0, "bbbb", 1), Chunk(1, "bbbb", 1)]
            && forall k :: 0 <= k < |chunks| ==> 'a' !in chunks[k].text
  {
    var cfg, para := Config(1, 0), "bbbbbbbb";
    ghost var none: seq<string> := [];
    assert ["a", para][1..] == [para] && [para][1..] == none;
    assert Step(cfg, State([], [], 0), "a") == State([], ["a"], 1);
    assert para[0..4] == "bbbb" && para[4..8] == "bbbb";
    assert Windows(cfg, para, 8) == [];
    assert Windows(cfg, para, 4) == ["bbbb"];
    assert Windows(cfg, para, 0) == ["bbbb", "bbbb"];
    assert ["bbbb", "bbbb"][1..] == ["bbbb"] && ["bbbb"][1..] == none;
    assert AddPieces([], ["bbbb", "bbbb"]) == AddPieces([Chunk(0, "bbbb", 1)], ["bbbb"]);
    assert AddPieces([Chunk(0, "bbbb", 1)], ["bbbb"]) == [Chunk(0, "bbbb", 1), Chunk(1, "bbbb", 1)];
  }

  /** When every paragraph fits, the chunk texts without their overlap rejoin to the paragraphs in order. */
  lemma FittingTextRejoins(cfg: Config, paras: seq<string>)
    requires forall k :: 0 <= k < |paras| ==> Fits(cfg, paras[k])
    ensures Rejoin(cfg, TextsOf(ChunkParagraphs(cfg, paras))) == Join(paras)
  {
    NothingLost(cfg, paras);
    FittingArePacked(cfg, Packing([], []), paras);
    ChunksArePacks(cfg, paras);
    PackedRejoin(cfg, PackUp(cfg, paras));
  }

  /** The first window whole, every later one without its overlap. */
  function Glue(cfg: Config, windows: seq<string>): string {
    if windows == [] then "" else windows[0] + GlueRest(cfg, windows[1..])
  }

  function GlueRest(cfg: Config, windows: seq<string>): string {
    if windows == [] then "" else DropChars(windows[0], cfg.Back()) + GlueRest(cfg, windows[1..])
  }

  /** A window without its first characters, and what follows it. */
  lemma WindowRest(para: string, i: nat, stride: nat, back: nat)
    requires i < |para| && back < stride
    ensures DropChars(para[i..Min(i + stride, |para|)], back) + DropChars(para, i + stride) == DropChars(para, i + back)
  {
    var window := para[i..Min(i + stride, |para|)];
    assert DropChars(window, back) == para[Min(i + back, |para|)..Min(i + stride, |para|)];
  }

  lemma {:induction false} RestGlues(cfg: Config, para: string, i: nat)
    requires cfg.Advances()
    ensures GlueRest(cfg, Windows(cfg, para, i)) == DropChars(para, i + cfg.Back())
    decreases |para| - i
  {
    if i < |para| {
      var next := i + cfg.Stride() - cfg.Back();
      RestGlues(cfg, para, next);
      WindowRest(para, i, cfg.Stride(), cfg.Back());
      assert Windows(cfg, para, i)[1..] == Windows(cfg, para, next);
    }
  }

  lemma WindowTokens(cfg: Config, para: string)
    requires cfg.Advances()
    ensures forall k :: 0 <= k < |Windows(cfg, para, 0)| ==> 0 < CountTokens(Windows(cfg, para, 0)[k]) <= cfg.size
  {
    WindowsFit(cfg, para, 0);
    assert forall text: string :: 0 < |text| <= cfg.Stride() ==> 0 < CountTokens(text) <= cfg.size;
  }

  /** The windows of a hard split glue back to the paragraph. */
  lemma HardSplitGlues(cfg: Config, para: string)
    requires cfg.Advances()
    ensures Glue(cfg, Windows(cfg, para, 0)) == para
    ensures forall k :: 0 <= k < |Windows(cfg, para, 0)| ==> 0 < CountTokens(Windows(cfg, para, 0)[k]) <= cfg.size
  {
    WindowTokens(cfg, para);
    if para != "" {
      RestGlues(cfg, para, cfg.Stride() - cfg.Back());
      assert Windows(cfg, para, 0)[1..] == Windows(cfg, para, cfg.Stride() - cfg.Back());
    }
  }

  /** A window of a width, or what is left of the paragraph. */
  predicate WindowAt(para: string, window: string, start: nat, width: nat) {
    start < |para| && window == para[start..Min(start + width, |para|)]
  }

  /** Windows that begin at starts a step apart, each as long as the width or
      reaching the end; so does the last step. */
  predicate Stepping(para: string, windows: seq<string>, starts: seq<nat>, i: nat, step: nat, width: nat) {
    && |starts| == |windows| > 0 && starts[0] == i
    && (forall k :: 0 <= k < |starts| ==> WindowAt(para, windows[k], starts[k], width))
    && (forall k :: 0 < k < |starts| ==> starts[k] == starts[k - 1] + step)
    && |para| <= starts[|starts| - 1] + step
  }

  lemma SteppingMore(para: string, first: string, windows: seq<string>, starts: seq<nat>, i: nat, step: nat, width: nat)
    requires Stepping(para, windows, starts, i + step, step, width) && WindowAt(para, first, i, width)
    ensures Stepping(para, [first] + windows, [i] + starts, i, step, width)
  {
    var more, all := [i] + starts, [first] + windows;
    forall k | 0 <= k < |more|
      ensures WindowAt(para, all[k], more[k], width) && (k > 0 ==> more[k] == more[k - 1] + step)
    {
      if k > 0 { assert more[k] == starts[k - 1] && all[k] == windows[k - 1]; }
    }
  }

  /** The windows begin at steps of 4*(size-overlap) characters, and each is 4*size characters long or
      reaches the end. */
  lemma {:induction false} WindowsAre(cfg: Config, para: string, i: nat) returns (starts: seq<nat>)
    requires cfg.Advances() && i < |para|
    ensures Stepping(para, Windows(cfg, para, i), starts, i, 4 * cfg.size - 4 * cfg.overlap, 4 * cfg.size)
    decreases |para| - i
  {
    var step, rest := 4 * cfg.size - 4 * cfg.overlap, Windows(cfg, para, i + 4 * cfg.size - 4 * cfg.overlap);
    var first := para[i..Min(i + 4 * cfg.size, |para|)];
    assert Windows(cfg, para, i) == [first] + rest;
    if i + step < |para| {
      starts := WindowsAre(cfg, para, i + step);
      SteppingMore(para, first, rest, starts, i, step, 4 * cfg.size);
      starts := [i] + starts;
    } else {
      assert rest == [] && [first] + rest == [first];
      starts := [i];
    }
  }

  // ---------------------------------------------------------------- tokens and the greedy rule

  function TokensOf(chunks: seq<Chunk>): (tokens: seq<nat>)
    ensures |tokens| == |chunks| && forall k :: 0 <= k < |chunks| ==> tokens[k] == chunks[k].tokens
  {
    seq(|chunks|, k requires 0 <= k < |chunks| => chunks[k].tokens)
  }

  function CountEach(texts: seq<string>): (tokens: seq<nat>)
    ensures |tokens| == |texts| && forall k :: 0 <= k < |texts| ==> tokens[k] == CountTokens(texts[k])
  {
    seq(|texts|, k requires 0 <= k < |texts| => CountTokens(texts[k]))
  }

  /** The tokens of the last pack: those of its overlap prefix and of each of its paragraphs. */
  function PackedTokens(cfg: Config, init: seq<Pack>, paras: seq<string>): nat { Sum(Prefix(cfg, init) + paras) }

  /** The token counts that a sequence of packs stands for. */
  function TokensBy(cfg: Config, packs: seq<Pack>): seq<nat> {
    if packs == [] then []
    else
      var init := packs[..|packs| - 1];
      TokensBy(cfg, init)
      + match packs[|packs| - 1]
        case Packed(paras) => [PackedTokens(cfg, init, paras)]
        case Oversize(para) => CountEach(Windows(cfg, para, 0))
  }

  lemma {:induction false} PiecesCounted(chunks: seq<Chunk>, pieces: seq<string>)
    ensures TokensOf(AddPieces(chunks, pieces)) == TokensOf(chunks) + CountEach(pieces)
    decreases pieces
  {
    if pieces != [] {
      var next := chunks + [Chunk(|chunks|, pieces[0], CountTokens(pieces[0]))];
      PiecesCounted(next, pieces[1..]);
      assert TokensOf(next) == TokensOf(chunks) + [CountTokens(pieces[0])];
      assert TokensOf(next) + CountEach(pieces[1..]) == TokensOf(chunks) + CountEach(pieces);
    }
  }

  lemma FlushCounted(cfg: Config, st: State, p: Packing)
    requires Explains(cfg, st, p.packs, p.pending) && p.pending != [] && TokensOf(st.chunks) == TokensBy(cfg, p.packs)
    ensures TokensOf(Flush(cfg, st).chunks) == TokensBy(cfg, p.packs + [Packed(p.pending)])
  {
    assert (p.packs + [Packed(p.pending)])[..|p.packs|] == p.packs;
    FlushedChunk(cfg, st);
    assert TokensOf(Flush(cfg, st).chunks) == TokensOf(st.chunks) + [st.tokens];
  }

  lemma StepCounted(cfg: Config, st: State, p: Packing, para: string)
    requires Explains(cfg, st, p.packs, p.pending) && TokensOf(st.chunks) == TokensBy(cfg, p.packs)
    ensures TokensOf(Step(cfg, st, para).chunks) == TokensBy(cfg, PackOne(cfg, p, para).packs)
  {
    if !Fits(cfg, para) {
      PiecesCounted(st.chunks, Windows(cfg, para, 0));
      assert (p.packs + [Oversize(para)])[..|p.packs|] == p.packs;
    } else if p.pending != [] && st.tokens + CountTokens(para) > cfg.size {
      FlushCounted(cfg, st, p);
    }
  }

  lemma {:induction false} RunCounted(cfg: Config, st: State, p: Packing, paras: seq<string>)
    requires Explains(cfg, st, p.packs, p.pending) && TokensOf(st.chunks) == TokensBy(cfg, p.packs)
    ensures TokensOf(Run(cfg, st, paras).chunks) == TokensBy(cfg, PackAll(cfg, p, paras).packs)
    decreases paras
  {
    if paras != [] {
      StepExplained(cfg, st, p, paras[0]);
      StepCounted(cfg, st, p, paras[0]);
      RunCounted(cfg, Step(cfg, st, paras[0]), PackOne(cfg, p, paras[0]), paras[1..]);
    }
  }

  /** The token counts of the chunks: a packed chunk counts its overlap prefix and each of its paragraphs,
      a window counts itself. */
  lemma TokensArePacks(cfg: Config, paras: seq<string>)
    ensures TokensOf(ChunkParagraphs(cfg, paras)) == TokensBy(cfg, PackUp(cfg, paras))
  {
    var st0, p0 := State([], [], 0), Packing([], []);
    var p := PackAll(cfg, p0, paras);
    RunExplained(cfg, st0, p0, paras);
    RunCounted(cfg, st0, p0, paras);
    if p.pending != [] { FlushCounted(cfg, Run(cfg, st0, paras), p); }
  }

  /** A run of more than one paragraph keeps within the size, and a run that follows another one starts
      with a paragraph that would have pushed the other over it. */
  predicate GreedyRun(cfg: Config, init: seq<Pack>, paras: seq<string>) {
    && paras != [] && (|paras| > 1 ==> PackedTokens(cfg, init, paras) <= cfg.size)
    && (init != [] && init[|init| - 1].Packed? ==>
          PackedTokens(cfg, init[..|init| - 1], init[|init| - 1].paras) + CountTokens(paras[0]) > cfg.size)
  }

  predicate Greedy(cfg: Config, packs: seq<Pack>) {
    packs == []
    || (Greedy(cfg, packs[..|packs| - 1])
        && (packs[|packs| - 1].Packed? ==> GreedyRun(cfg, packs[..|packs| - 1], packs[|packs| - 1].paras)))
  }

  lemma GreedyMore(cfg: Config, packs: seq<Pack>, pack: Pack)
    requires Greedy(cfg, packs) && (pack.Packed? ==> GreedyRun(cfg, packs, pack.paras))
    ensures Greedy(cfg, packs + [pack])
  {
    assert (packs + [pack])[..|packs|] == packs;
  }

  lemma {:induction false} PackAllIsGreedy(cfg: Config, p: Packing, paras: seq<string>)
    requires Greedy(cfg, p.packs) && (p.pending != [] ==> GreedyRun(cfg, p.packs, p.pending))
    requires p.pending == [] && p.packs != [] ==> p.packs[|p.packs| - 1].Oversize?
    ensures Greedy(cfg, Close(PackAll(cfg, p, paras)))
    decreases paras
  {
    if paras == [] {
      if p.pending != [] { GreedyMore(cfg, p.packs, Packed(p.pending)); }
    } else {
      PackOneIsGreedy(cfg, p, paras[0]);
      PackAllIsGreedy(cfg, PackOne(cfg, p, paras[0]), paras[1..]);
    }
  }

  lemma PackOneIsGreedy(cfg: Config, p: Packing, para: string)
    requires Greedy(cfg, p.packs) && (p.pending != [] ==> GreedyRun(cfg, p.packs, p.pending))
    requires p.pending == [] && p.packs != [] ==> p.packs[|p.packs| - 1].Oversize?
    ensures var p' := PackOne(cfg, p, para);
            && Greedy(cfg, p'.packs) && (p'.pending != [] ==> GreedyRun(cfg, p'.packs, p'.pending))
            && (p'.pending == [] && p'.packs != [] ==> p'.packs[|p'.packs| - 1].Oversize?)
  {
    if !Fits(cfg, para) {
      GreedyMore(cfg, p.packs, Oversize(para));
    } else if p.pending != [] && Sum(Prefix(cfg, p.packs) + p.pending) + CountTokens(para) > cfg.size {
      GreedyMore(cfg, p.packs, Packed(p.pending));
      assert (p.packs + [Packed(p.pending)])[..|p.packs|] == p.packs;
    } else if p.pending != [] {
      SumLast(Prefix(cfg, p.packs) + p.pending, para);
      assert Prefix(cfg, p.packs) + (p.pending + [para]) == (Prefix(cfg, p.packs) + p.pending) + [para];
    }
  }

  /** Paragraphs are packed greedily: as many to a chunk as the size allows, and no fewer. */
  lemma PackingIsGreedy(cfg: Config, paras: seq<string>)
    ensures Greedy(cfg, PackUp(cfg, paras))
  {
    PackAllIsGreedy(cfg, Packing([], []), paras);
  }

  /** The text of a packed chunk: after another packed one it begins with that one's last 4*overlap
      characters and a blank line; after a window, at the start or without overlap it is its paragraphs alone. */
  lemma BodyIs(cfg: Config, init: seq<Pack>, paras: seq<string>)
    requires paras != []
    ensures var body := BodyOf(cfg, init + [Packed(paras)]);
            if cfg.overlap > 0 && init != [] && init[|init| - 1].Packed? then
              var prev := BodyOf(cfg, init);
              body == prev[|prev| - Min(4 * cfg.overlap, |prev|)..] + "\n\n" + Join(paras)
            else body == Join(paras)
  {
    TextsPacked(cfg, init, paras);
    if cfg.overlap > 0 && init != [] && init[|init| - 1].Packed? {
      JoinAppend(Prefix(cfg, init), paras);
    } else {
      assert Prefix(cfg, init) + paras == paras;
    }
  }

  // ---------------------------------------------------------------- paragraphs in the chunk texts

  predicate At(u: string, s: string, a: nat) { a + |u| <= |s| && s[a..a + |u|] == u }

  /** u occurs in s as a substring. */
  ghost predicate Within(u: string, s: string) { exists a: nat :: At(u, s, a) }

  lemma AtLater(u: string, front: string, rest: string, a: nat)
    requires At(u, rest, a)
    ensures At(u, front + rest, |front| + a)
  {
    assert (front + rest)[|front| + a..|front| + a + |u|] == rest[a..a + |u|];
  }

  lemma {:induction false} PartWithin(parts: seq<string>, k: nat)
    requires k < |parts|
    ensures Within(parts[k], Join(parts))
  {
    if k == 0 {
      assert At(parts[0], Join(parts), 0);
    } else {
      PartWithin(parts[1..], k - 1);
      var a: nat :| At(parts[1..][k - 1], Join(parts[1..]), a);
      AtLater(parts[k], parts[0] + SEPARATOR, Join(parts[1..]), a);
    }
  }

  /** The packed paragraphs all fit, the split ones do not. */
  predicate Sorted(cfg: Config, packs: seq<Pack>) {
    forall k :: 0 <= k < |packs| ==>
      match packs[k]
      case Packed(paras) => AllFit(cfg, paras)
      case Oversize(para) => !Fits(cfg, para)
  }

  predicate AllFit(cfg: Config, paras: seq<string>) { forall k :: 0 <= k < |paras| ==> Fits(cfg, paras[k]) }

  lemma {:induction false} PacksAreSorted(cfg: Config, p: Packing, paras: seq<string>)
    requires Sorted(cfg, p.packs) && AllFit(cfg, p.pending)
    ensures Sorted(cfg, Close(PackAll(cfg, p, paras)))
    decreases paras
  {
    if paras != [] { PacksAreSorted(cfg, PackOne(cfg, p, paras[0]), paras[1..]); }
  }

  /** The paragraph is found at the stretch of texts: inside its one text when it fits, glued from its
      texts otherwise. */
  ghost predicate FoundAt(cfg: Config, texts: seq<string>, para: string, lo: nat, hi: nat) {
    lo <= hi <= |texts|
    && if Fits(cfg, para) then hi == lo + 1 && Within(para, texts[lo]) else Glue(cfg, texts[lo..hi]) == para
  }

  lemma FoundStays(cfg: Config, texts: seq<string>, more: seq<string>, para: string, lo: nat, hi: nat)
    requires FoundAt(cfg, texts, para, lo, hi)
    ensures FoundAt(cfg, texts + more, para, lo, hi)
  {
    assert (texts + more)[lo..hi] == texts[lo..hi];
  }

  lemma PackedFound(cfg: Config, init: seq<Pack>, paras: seq<string>, k: nat)
    requires AllFit(cfg, paras) && k < |paras|
    ensures var lo := |Texts(cfg, init)|; FoundAt(cfg, Texts(cfg, init + [Packed(paras)]), paras[k], lo, lo + 1)
  {
    var parts := Prefix(cfg, init) + paras;
    TextsPacked(cfg, init, paras);
    assert Texts(cfg, init + [Packed(paras)])[|Texts(cfg, init)|] == Join(parts);
    assert parts[|Prefix(cfg, init)| + k] == paras[k];
    PartWithin(parts, |Prefix(cfg, init)| + k);
    FoundInOne(cfg, Texts(cfg, init + [Packed(paras)]), paras[k], |Texts(cfg, init)|);
  }

  lemma FoundInOne(cfg: Config, texts: seq<string>, para: string, lo: nat)
    requires Fits(cfg, para) && lo < |texts| && Within(para, texts[lo])
    ensures FoundAt(cfg, texts, para, lo, lo + 1)
  {
  }

  lemma OversizeFound(cfg: Config, init: seq<Pack>, para: string)
    requires !Fits(cfg, para) && cfg.Advances()
    ensures var texts := Texts(cfg, init + [Oversize(para)]);
            FoundAt(cfg, texts, para, |Texts(cfg, init)|, |texts|)
  {
    var lo, texts := |Texts(cfg, init)|, Texts(cfg, init + [Oversize(para)]);
    assert (init + [Oversize(para)])[..|init|] == init;
    assert texts[lo..|texts|] == Windows(cfg, para, 0);
    HardSplitGlues(cfg, para);
  }

  /** What the last pack holds is found in the texts it adds. */
  lemma LastPackFound(cfg: Config, packs: seq<Pack>, c: nat) returns (lo: nat, hi: nat)
    requires Sorted(cfg, packs) && packs != []
    requires |Contents(cfg, packs[..|packs| - 1])| <= c < |Contents(cfg, packs)|
    ensures FoundAt(cfg, Texts(cfg, packs), Contents(cfg, packs)[c], lo, hi)
  {
    var init, last := packs[..|packs| - 1], packs[|packs| - 1];
    assert packs == init + [last];
    lo, hi := |Texts(cfg, init)|, |Texts(cfg, packs)|;
    match last {
      case Packed(paras) =>
        PackedFound(cfg, init, paras, c - |Contents(cfg, init)|);
        hi := lo + 1;
      case Oversize(para) =>
        OversizeFound(cfg, init, para);
    }
  }

  lemma {:induction false} PacksFound(cfg: Config, packs: seq<Pack>, c: nat) returns (lo: nat, hi: nat)
    requires Sorted(cfg, packs) && c < |Contents(cfg, packs)|
    ensures FoundAt(cfg, Texts(cfg, packs), Contents(cfg, packs)[c], lo, hi)
  {
    var init := packs[..|packs| - 1];
    if c < |Contents(cfg, init)| {
      lo, hi := PacksFound(cfg, init, c);
      var more := Texts(cfg, packs)[|Texts(cfg, init)|..];
      assert Texts(cfg, packs) == Texts(cfg, init) + more;
      FoundStays(cfg, Texts(cfg, init), more, Contents(cfg, init)[c], lo, hi);
    } else {
      lo, hi := LastPackFound(cfg, packs, c);
    }
  }

  /** When nothing is dropped, every paragraph that fits occurs in some chunk text, and every oversize
      one glues from a consecutive stretch of chunk texts. */
  lemma ParagraphsAreFound(cfg: Config, paras: seq<string>, k: nat) returns (lo: nat, hi: nat)
    requires NoneDropped(cfg, paras) && k < |paras|
    ensures FoundAt(cfg, TextsOf(ChunkParagraphs(cfg, paras)), paras[k], lo, hi)
  {
    NothingLost(cfg, paras);
    ChunksArePacks(cfg, paras);
    PacksAreSorted(cfg, Packing([], []), paras);
    lo, hi := PacksFound(cfg, PackUp(cfg, paras), k);
  }

  /** Splitting at blank lines loses nothing: the parts rejoin to the text. */
  lemma {:induction false} SplitRejoins(text: string)
    ensures Join(Split(text)) == text
  {
    if text != "" {
      if SEPARATOR <= text {
        SplitRejoins(text[2..]);
        JoinFirst("", Split(text[2..]));
        assert text == SEPARATOR + text[2..];
      } else {
        SplitRejoins(text[1..]);
        JoinLonger([text[0]], Split(text[1..]));
        assert text == [text[0]] + text[1..];
      }
    }
  }

  lemma JoinFirst(part: string, rest: seq<string>)
    requires rest != []
    ensures Join([part] + rest) == part + SEPARATOR + Join(rest)
  {
    assert ([part] + rest)[1..] == rest;
  }

  lemma JoinLonger(front: string, parts: seq<string>)
    requires parts != []
    ensures Join([front + parts[0]] + parts[1..]) == front + Join(parts)
  {
    var longer := [front + parts[0]] + parts[1..];
    assert longer[1..] == parts[1..];
    if |parts| > 1 {
      assert front + (parts[0] + SEPARATOR + Join(parts[1..])) == (front + parts[0]) + SEPARATOR + Join(parts[1..]);
    }
  }
}
