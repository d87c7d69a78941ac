/**
 The embedding gateway (`embed`): cached, batched, order-restoring.  It refines the plain map
 that embeds every text on its own.
 */
module EmbeddingGateway {
  import opened Options
  import opened Rounding

  const MAX_BATCH := 100

  type Vector = seq<real>

  /** The cost is in units of 0.000001 USD. */
  datatype Response = Response(vectors: seq<Vector>, cachedCount: nat, fetchedCount: nat, totalTokens: nat, cost: int)

  /** At 0.02 USD per million tokens. */
  function CostOf(tokens: nat): int { HalfEven(tokens as real * 0.02) }

  /** A million tokens cost two cents, any number of them as close to that rate as whole units allow. */
  lemma CostIs(tokens: nat, millions: nat)
    ensures -0.5 <= CostOf(tokens) as real - tokens as real / 50.0 <= 0.5
    ensures CostOf(1_000_000 * millions) == 20_000 * millions
  {
    HalfEvenIsNearest(tokens as real * 0.02, CostOf(tokens));
    HalfEvenIsNearest((1_000_000 * millions) as real * 0.02, 20_000 * millions);
    assert (1_000_000 * millions) as real * 0.02 == (20_000 * millions) as real;
  }

  /** The cache key of a text under the model in use, the upstream call, the usage it reports for
      each call, and the call (counted within one `embed`) at which it raises for good, if any. */
  datatype Env = Env(key: string -> string, upstream: seq<string> -> seq<Vector>, usage: nat -> nat,
                     failing: Option<nat>)

  function Map(embed: string -> Vector, texts: seq<string>): (vectors: seq<Vector>)
    ensures |vectors| == |texts| && forall k :: 0 <= k < |texts| ==> vectors[k] == embed(texts[k])
  {
    seq(|texts|, k requires 0 <= k < |texts| => embed(texts[k]))
  }

  /** The upstream answers a batch with the embedding of each text, in order. */
  ghost predicate OrderPreserving(env: Env, embed: string -> Vector) {
    forall batch {:trigger env.upstream(batch)} :: env.upstream(batch) == Map(embed, batch)
  }

  predicate SameKey(env: Env, a: string, b: string) { env.key(a) == env.key(b) }

  ghost predicate CollisionFree(env: Env) {
    forall a, b :: SameKey(env, a, b) ==> a == b
  }

  /** Every cached vector is the embedding of the text it is stored for. */
  ghost predicate Consistent(env: Env, embed: string -> Vector, cache: map<string, Vector>) {
    forall text {:trigger env.key(text)} :: env.key(text) in cache ==> cache[env.key(text)] == embed(text)
  }

  predicate Missing(env: Env, cache: map<string, Vector>, useCache: bool, text: string) {
    !useCache || env.key(text) !in cache
  }

  /** The texts that are not cached, in order, duplicates included. */
  function Misses(env: Env, cache: map<string, Vector>, useCache: bool, texts: seq<string>): (misses: seq<string>)
    ensures |misses| <= |texts|
  {
    if texts == [] then []
    else
      var n := |texts| - 1;
      if Missing(env, cache, useCache, texts[n]) then Misses(env, cache, useCache, texts[..n]) + [texts[n]]
      else Misses(env, cache, useCache, texts[..n])
  }

  /** The misses are found text by text: without the cache every one, with it those whose key is not cached. */
  lemma {:induction false} MissesAppend(env: Env, cache: map<string, Vector>, useCache: bool, a: seq<string>,
                                        b: seq<string>)
    ensures Misses(env, cache, useCache, a + b) == Misses(env, cache, useCache, a) + Misses(env, cache, useCache, b)
    decreases |b|
  {
    if b != [] {
      assert (a + b)[..|a + b| - 1] == a + b[..|b| - 1];
      MissesAppend(env, cache, useCache, a, b[..|b| - 1]);
    } else {
      assert a + b == a;
    }
  }

  lemma MissesOfOne(env: Env, cache: map<string, Vector>, useCache: bool, text: string)
    ensures Misses(env, cache, useCache, [text]) == if useCache && env.key(text) in cache then [] else [text]
  {
    assert [text][..0] == [];
  }

  function Batches(texts: seq<string>): seq<seq<string>> {
    if texts == [] then []
    else if |texts| <= MAX_BATCH then [texts]
    else [texts[..MAX_BATCH]] + Batches(texts[MAX_BATCH..])
  }

  function Flatten(batches: seq<seq<string>>): seq<string> {
    if batches == [] then [] else batches[0] + Flatten(batches[1..])
  }

  function Sum(usage: nat -> nat, calls: nat): nat {
    if calls == 0 then 0 else Sum(usage, calls - 1) + usage(calls - 1)
  }

  /** Batching keeps every text in order, in the least number of batches of at most 100, none empty. */
  lemma {:induction false} BatchesCover(texts: seq<string>)
    ensures Flatten(Batches(texts)) == texts
    ensures forall k :: 0 <= k < |Batches(texts)| ==> 0 < |Batches(texts)[k]| <= 100
    ensures |Batches(texts)| == (|texts| + 99) / 100
  {
    if |texts| > MAX_BATCH {
      BatchesCover(texts[MAX_BATCH..]);
      assert texts == texts[..MAX_BATCH] + texts[MAX_BATCH..];
    } else if texts != [] {
      assert Flatten([texts]) == texts + Flatten([]);
    }
  }

  lemma {:induction false} BatchesStep(texts: seq<string>, start: nat)
    requires start < |texts|
    ensures var stop := if start + MAX_BATCH < |texts| then start + MAX_BATCH else |texts|;
            Batches(texts[start..]) == [texts[start..stop]] + Batches(texts[stop..])
  {
    var stop := if start + MAX_BATCH < |texts| then start + MAX_BATCH else |texts|;
    assert texts[start..][..stop - start] == texts[start..stop];
    if stop < |texts| {
      assert texts[start..][MAX_BATCH..] == texts[stop..];
    } else {
      assert texts[stop..] == [] && texts[start..stop] == texts[start..];
    }
  }

  class Gateway {
    var cache: map<string, Vector>
    /** The batches sent upstream so far. */
    var sent: seq<seq<string>>

    constructor ()
      ensures cache == map[] && sent == []
    {
      cache, sent := map[], [];
    }

    /** One batch: its texts with the places their vectors go to. */
    method FetchBatch(env: Env, ghost embed: string -> Vector, ghost texts: seq<string>, misses: seq<(nat, string)>,
                      useCache: bool, vectors: array<Option<Vector>>, fails: bool) returns (ok: bool)
      requires OrderPreserving(env, embed) && CollisionFree(env) && Consistent(env, embed, cache)
      requires vectors.Length == |texts| && Placed(misses, texts)
      modifies this, vectors
      ensures ok == !fails && sent == old(sent) + [Texts(misses)] && Consistent(env, embed, cache)
      ensures old(cache).Keys <= cache.Keys && (!useCache ==> cache == old(cache))
      ensures Kept(embed, texts, old(vectors[..]), vectors[..])
      ensures ok ==> Embedded(embed, misses, vectors[..]) && (useCache ==> Cached(env, misses, cache))
    {
      var batch := Texts(misses);
      sent := sent + [batch];
      if fails {
        return false;
      }
      var data := env.upstream(batch);
      for k := 0 to |misses|
        invariant sent == old(sent) + [batch]
        invariant Kept(embed, texts, old(vectors[..]), vectors[..]) && Embedded(embed, misses[..k], vectors[..])
        invariant Consistent(env, embed, cache) && old(cache).Keys <= cache.Keys
        invariant if useCache then Cached(env, misses[..k], cache) else cache == old(cache)
      {
        var (i, text) := misses[k];
        var vector := data[k];
        assert vector == embed(text);
        PutInPlace(embed, texts, misses, k, old(vectors[..]), vectors[..]);
        vectors[i] := Some(vector);
        if useCache {
          PutInCache(env, embed, misses, k, cache);
          cache := cache[env.key(text) := vector];
        }
      }
      assert misses[..|misses|] == misses;
      ok := true;
    }

    /** The first pass: cached vectors are put in place, the rest is noted with its place. */
    method LookUp(env: Env, ghost embed: string -> Vector, texts: seq<string>, useCache: bool,
                  vectors: array<Option<Vector>>)
      returns (misses: seq<(nat, string)>)
      requires Consistent(env, embed, cache) && vectors.Length == |texts|
      requires forall i :: 0 <= i < |texts| ==> vectors[i].None?
      modifies vectors
      ensures misses == Noted(env, cache, useCache, texts, |texts|)
      ensures LookedUp(env, embed, cache, useCache, texts, vectors[..])
    {
      misses := [];
      for i := 0 to |texts|
        invariant misses == Noted(env, cache, useCache, texts, i)
        invariant forall k :: i <= k < |texts| ==> vectors[k].None?
        invariant forall k :: 0 <= k < i ==>
                    vectors[k] == if Missing(env, cache, useCache, texts[k]) then None else Some(embed(texts[k]))
      {
        if useCache && env.key(texts[i]) in cache {
          vectors[i] := Some(cache[env.key(texts[i])]);
        } else {
          misses := misses + [(i, texts[i])];
        }
      }
    }

    /** The second pass: batch after batch until done or a call raises. */
    method FetchAll(env: Env, ghost embed: string -> Vector, ghost texts: seq<string>, misses: seq<(nat, string)>,
                    useCache: bool, vectors: array<Option<Vector>>) returns (ok: bool, totalTokens: nat)
      requires OrderPreserving(env, embed) && CollisionFree(env) && Consistent(env, embed, cache)
      requires vectors.Length == |texts| && Placed(misses, texts)
      modifies this, vectors
      ensures Consistent(env, embed, cache) && (!useCache ==> cache == old(cache))
      ensures ok == !Raises(env, Batches(Texts(misses)))
      ensures sent == old(sent) + Sent(env, Batches(Texts(misses)))
      ensures ok ==> totalTokens == Sum(env.usage, |Batches(Texts(misses))|)
      ensures old(cache).Keys <= cache.Keys
      ensures Kept(embed, texts, old(vectors[..]), vectors[..])
      ensures ok ==> Embedded(embed, misses, vectors[..]) && (useCache ==> Cached(env, misses, cache))
    {
      ghost var missing := Texts(misses);
      ghost var batches := Batches(missing);
      totalTokens := 0;
      var start := 0;
      var call := 0;
      while start < |misses|
        invariant start <= |misses| && call <= |batches| && totalTokens == Sum(env.usage, call)
        invariant batches[call..] == Batches(missing[start..])
        invariant sent == old(sent) + batches[..call]
        invariant env.failing.Some? ==> call <= env.failing.value
        invariant Consistent(env, embed, cache) && (!useCache ==> cache == old(cache))
        invariant old(cache).Keys <= cache.Keys
        invariant Kept(embed, texts, old(vectors[..]), vectors[..])
        invariant Embedded(embed, misses[..start], vectors[..]) && (useCache ==> Cached(env, misses[..start], cache))
      {
        var stop := if start + MAX_BATCH < |misses| then start + MAX_BATCH else |misses|;
        var chunk := misses[start..stop];
        BatchesStep(missing, start);
        assert Texts(chunk) == missing[start..stop];
        NextBatch(batches, call, Texts(chunk), Batches(missing[stop..]));
        ghost var was, cache1 := vectors[..], cache;
        var ok1 := FetchBatch(env, embed, texts, chunk, useCache, vectors, env.failing == Some(call));
        KeptTwice(embed, texts, old(vectors[..]), was, vectors[..]);
        if !ok1 {
          return false, totalTokens;
        }
        DoneGrows(embed, texts, misses, start, stop, was, vectors[..]);
        if useCache { CachedGrows(env, misses, start, stop, cache1, cache); }
        totalTokens := totalTokens + env.usage(call);
        call := call + 1;
        start := stop;
      }
      assert missing[start..] == [] && misses[..start] == misses;
      assert batches[..call] == batches;
      ok := true;
    }

    /** Both passes: every text gets its vector, unless an upstream call raises. */
    method Fill(env: Env, ghost embed: string -> Vector, texts: seq<string>, useCache: bool,
                vectors: array<Option<Vector>>)
      returns (missCount: nat, ok: bool, totalTokens: nat)
      requires OrderPreserving(env, embed) && CollisionFree(env) && Consistent(env, embed, cache)
      requires vectors.Length == |texts| && forall i :: 0 <= i < |texts| ==> vectors[i].None?
      modifies this, vectors
      ensures Consistent(env, embed, cache) && (!useCache ==> cache == old(cache)) && old(cache).Keys <= cache.Keys
      ensures var misses := Misses(env, old(cache), useCache, texts);
              && missCount == |misses| && ok == !Raises(env, Batches(misses))
              && sent == old(sent) + Sent(env, Batches(misses))
              && (ok ==> totalTokens == Sum(env.usage, |Batches(misses)|))
      ensures ok ==> Filled(embed, texts, vectors[..]) && (useCache ==> Misses(env, cache, useCache, texts) == [])
    {
      var misses := LookUp(env, embed, texts, useCache, vectors);
      NotedMisses(env, cache, useCache, texts, |texts|);
      assert texts[..|texts|] == texts;
      assert Texts(misses) == Misses(env, old(cache), useCache, texts);
      ghost var first := vectors[..];
      missCount := |misses|;
      ok, totalTokens := FetchAll(env, embed, texts, misses, useCache, vectors);
      if ok { AllFilled(env, embed, old(cache), cache, useCache, texts, first, vectors[..]); }
    }

    /** The final list; the empty vector stands in for a place without one, which never happens. */
    method Finish(ghost embed: string -> Vector, ghost texts: seq<string>, vectors: array<Option<Vector>>)
      returns (final: seq<Vector>)
      requires Filled(embed, texts, vectors[..])
      ensures final == Map(embed, texts)
    {
      final := [];
      for i := 0 to vectors.Length
        invariant final == Map(embed, texts)[..i]
      {
        assert vectors[i] == vectors[..][i];
        final := final + [if vectors[i].Some? then vectors[i].value else []];
      }
    }

    /** `embed`; an upstream call that keeps failing raises, which leaves the earlier batches cached. */
    method Embed(env: Env, ghost embed: string -> Vector, texts: seq<string>, useCache: bool)
      returns (r: Option<Response>)
      requires OrderPreserving(env, embed) && CollisionFree(env) && Consistent(env, embed, cache)
      modifies this
      ensures Consistent(env, embed, cache) && (!useCache ==> cache == old(cache))
      ensures var misses := Misses(env, old(cache), useCache, texts);
              var tokens := Sum(env.usage, |Batches(misses)|);
              && sent == old(sent) + Sent(env, Batches(misses))
              && r == if Raises(env, Batches(misses)) then None
                      else Some(Response(Map(embed, texts), |texts| - |misses|, |misses|, tokens, CostOf(tokens)))
      ensures old(cache).Keys <= cache.Keys
      ensures r.Some? && useCache ==> Misses(env, cache, useCache, texts) == []
    {
      if texts == [] {
        NoTexts(env, embed, cache, useCache);
        assert sent + Sent(env, []) == sent;
        return Some(Response([], 0, 0, 0, 0));
      }
      var n := |texts|;
      var vectors := new Option<Vector>[n](_ => None);
      var missCount, ok, totalTokens := Fill(env, embed, texts, useCache, vectors);
      if !ok {
        return None;
      }
      var final := Finish(embed, texts, vectors);
      r := Some(Response(final, n - missCount, missCount, totalTokens, CostOf(totalTokens)));
    }
  }

  /** No text means no miss, no batch and no cost. */
  lemma NoTexts(env: Env, embed: string -> Vector, cache: map<string, Vector>, useCache: bool)
    ensures Misses(env, cache, useCache, []) == [] && Batches([]) == [] && CostOf(Sum(env.usage, 0)) == 0
    ensures !Raises(env, []) && Sent(env, []) == [] && Map(embed, []) == []
  {
  }

  /** The misses among the first n texts, in order, each with its place. */
  function Noted(env: Env, cache: map<string, Vector>, useCache: bool, texts: seq<string>, n: nat): seq<(nat, string)>
    requires n <= |texts|
  {
    if n == 0 then []
    else if Missing(env, cache, useCache, texts[n - 1])
    then Noted(env, cache, useCache, texts, n - 1) + [(n - 1, texts[n - 1])]
    else Noted(env, cache, useCache, texts, n - 1)
  }

  lemma {:induction false} NotedMisses(env: Env, cache: map<string, Vector>, useCache: bool, texts: seq<string>, n: nat)
    requires n <= |texts|
    ensures var misses := Noted(env, cache, useCache, texts, n);
            Placed(misses, texts) && Texts(misses) == Misses(env, cache, useCache, texts[..n])
  {
    if n > 0 {
      NotedMisses(env, cache, useCache, texts, n - 1);
      assert texts[..n][..n - 1] == texts[..n - 1];
      var before := Noted(env, cache, useCache, texts, n - 1);
      assert Texts(before + [(n - 1, texts[n - 1])]) == Texts(before) + [texts[n - 1]];
    }
  }

  /** Every cached text has its vector, the others have none yet. */
  predicate LookedUp(env: Env, embed: string -> Vector, cache: map<string, Vector>, useCache: bool, texts: seq<string>,
                     now: seq<Option<Vector>>)
  {
    |now| == |texts|
    && forall i :: 0 <= i < |texts| ==>
         now[i] == if Missing(env, cache, useCache, texts[i]) then None else Some(embed(texts[i]))
  }

  predicate Filled(embed: string -> Vector, texts: seq<string>, now: seq<Option<Vector>>) {
    |now| == |texts| && forall i :: 0 <= i < |texts| ==> now[i] == Some(embed(texts[i]))
  }

  /** Once the misses have their vectors every text has its own, and every key is cached. */
  lemma AllFilled(env: Env, embed: string -> Vector, cache: map<string, Vector>, cache': map<string, Vector>,
                  useCache: bool, texts: seq<string>, first: seq<Option<Vector>>, now: seq<Option<Vector>>)
    requires LookedUp(env, embed, cache, useCache, texts, first) && Kept(embed, texts, first, now)
    requires Embedded(embed, Noted(env, cache, useCache, texts, |texts|), now)
    requires useCache ==> cache.Keys <= cache'.Keys && Cached(env, Noted(env, cache, useCache, texts, |texts|), cache')
    ensures Filled(embed, texts, now)
    ensures useCache ==> Misses(env, cache', useCache, texts) == []
  {
    forall i | 0 <= i < |texts|
      ensures now[i] == Some(embed(texts[i])) && (useCache ==> env.key(texts[i]) in cache')
    {
      if Missing(env, cache, useCache, texts[i]) {
        var k := MissIsNoted(env, cache, useCache, texts, |texts|, i);
      } else {
        assert env.key(texts[i]) in cache.Keys;
      }
    }
    if useCache { NoneMissing(env, cache', texts); }
  }

  lemma {:induction false} MissIsNoted(env: Env, cache: map<string, Vector>, useCache: bool, texts: seq<string>,
                                       n: nat, i: nat)
    returns (k: nat)
    requires i < n <= |texts| && Missing(env, cache, useCache, texts[i])
    ensures var misses := Noted(env, cache, useCache, texts, n); k < |misses| && misses[k] == (i, texts[i])
  {
    if i == n - 1 {
      k := |Noted(env, cache, useCache, texts, i)|;
    } else {
      k := MissIsNoted(env, cache, useCache, texts, n - 1, i);
    }
  }

  /** Nothing was put in a place but the embedding of its text. */
  predicate Kept(embed: string -> Vector, texts: seq<string>, was: seq<Option<Vector>>, now: seq<Option<Vector>>) {
    |was| == |now| == |texts| && forall i :: 0 <= i < |texts| ==> now[i] == was[i] || now[i] == Some(embed(texts[i]))
  }

  /** The misses have their vectors. */
  predicate Embedded(embed: string -> Vector, misses: seq<(nat, string)>, now: seq<Option<Vector>>) {
    forall k :: 0 <= k < |misses| ==> misses[k].0 < |now| && now[misses[k].0] == Some(embed(misses[k].1))
  }

  predicate Cached(env: Env, misses: seq<(nat, string)>, cache: map<string, Vector>) {
    forall k :: 0 <= k < |misses| ==> env.key(misses[k].1) in cache
  }

  lemma PutInPlace(embed: string -> Vector, texts: seq<string>, misses: seq<(nat, string)>, k: nat,
                   first: seq<Option<Vector>>, was: seq<Option<Vector>>)
    requires k < |misses| && Placed(misses, texts) && Kept(embed, texts, first, was)
    requires Embedded(embed, misses[..k], was)
    ensures var (i, text) := misses[k];
            var now := was[i := Some(embed(text))];
            Kept(embed, texts, first, now) && Embedded(embed, misses[..k + 1], now)
  {
    var (i, text) := misses[k];
    var now := was[i := Some(embed(text))];
    forall j | 0 <= j < k + 1
      ensures misses[j].0 < |now| && now[misses[j].0] == Some(embed(misses[j].1))
    {
      if j < k { assert misses[..k][j] == misses[j]; }
    }
  }

  lemma PutInCache(env: Env, embed: string -> Vector, misses: seq<(nat, string)>, k: nat, cache: map<string, Vector>)
    requires k < |misses| && CollisionFree(env) && Consistent(env, embed, cache) && Cached(env, misses[..k], cache)
    ensures var text := misses[k].1;
            var cache' := cache[env.key(text) := embed(text)];
            Consistent(env, embed, cache') && Cached(env, misses[..k + 1], cache')
  {
    var text := misses[k].1;
    var cache' := cache[env.key(text) := embed(text)];
    assert forall j :: 0 <= j < k ==> misses[..k][j] == misses[j];
    forall other | env.key(other) in cache'
      ensures cache'[env.key(other)] == embed(other)
    {
      assert SameKey(env, other, text) || env.key(other) in cache;
    }
  }

  lemma KeptTwice(embed: string -> Vector, texts: seq<string>, a: seq<Option<Vector>>, b: seq<Option<Vector>>,
                  c: seq<Option<Vector>>)
    requires Kept(embed, texts, a, b) && Kept(embed, texts, b, c)
    ensures Kept(embed, texts, a, c)
  {
  }

  lemma DoneGrows(embed: string -> Vector, texts: seq<string>, misses: seq<(nat, string)>, start: nat, stop: nat,
                  was: seq<Option<Vector>>, now: seq<Option<Vector>>)
    requires start <= stop <= |misses| && Placed(misses, texts) && Kept(embed, texts, was, now)
    requires Embedded(embed, misses[..start], was) && Embedded(embed, misses[start..stop], now)
    ensures Embedded(embed, misses[..stop], now)
  {
    forall k | 0 <= k < stop
      ensures misses[k].0 < |now| && now[misses[k].0] == Some(embed(misses[k].1))
    {
      assert if k < start then misses[..start][k] == misses[k] else misses[start..stop][k - start] == misses[k];
    }
  }

  lemma CachedGrows(env: Env, misses: seq<(nat, string)>, start: nat, stop: nat, was: map<string, Vector>,
                    now: map<string, Vector>)
    requires start <= stop <= |misses| && was.Keys <= now.Keys
    requires Cached(env, misses[..start], was) && Cached(env, misses[start..stop], now)
    ensures Cached(env, misses[..stop], now)
  {
    forall k | 0 <= k < stop
      ensures env.key(misses[k].1) in now
    {
      assert if k < start then misses[..start][k] == misses[k] else misses[start..stop][k - start] == misses[k];
      if k < start { assert env.key(misses[k].1) in was.Keys; }
    }
  }

  lemma {:induction false} NoneMissing(env: Env, cache: map<string, Vector>, texts: seq<string>)
    requires forall i :: 0 <= i < |texts| ==> env.key(texts[i]) in cache
    ensures Misses(env, cache, true, texts) == []
  {
    if texts != [] { NoneMissing(env, cache, texts[..|texts| - 1]); }
  }

  /** Some of the batches is the failing call. */
  predicate Raises(env: Env, batches: seq<seq<string>>) { env.failing.Some? && env.failing.value < |batches| }

  /** The batches that reach the upstream: all of them, or those up to the failing one. */
  function Sent(env: Env, batches: seq<seq<string>>): seq<seq<string>> {
    if Raises(env, batches) then batches[..env.failing.value + 1] else batches
  }

  lemma NextBatch<T>(all: seq<T>, n: nat, head: T, rest: seq<T>)
    requires n <= |all| && all[n..] == [head] + rest
    ensures n < |all| && all[..n] + [head] == all[..n + 1] && all[n + 1..] == rest
  {
    assert all[n] == all[n..][0];
    assert all[n + 1..] == all[n..][1..];
  }

  function Texts(misses: seq<(nat, string)>): (texts: seq<string>)
    ensures |texts| == |misses| && forall k :: 0 <= k < |misses| ==> texts[k] == misses[k].1
  {
    seq(|misses|, k requires 0 <= k < |misses| => misses[k].1)
  }

  /** Each miss carries the text of its own place. */
  predicate Placed(misses: seq<(nat, string)>, texts: seq<string>) {
    forall k :: 0 <= k < |misses| ==> misses[k].0 < |texts| && misses[k].1 == texts[misses[k].0]
  }
}