/**
 The cache-backed token bucket of `rate_limit.py`.  Clock readings and levels are reals; the
 saved state is lost 3600 seconds after it was written.
 */
module TokenBucket {
  import opened Options

  const TIMEOUT := 3600.0

  datatype Config = Config(capacity: nat, refill: real) {
    predicate Valid() { refill >= 0.0 }
    function Cap(): real { capacity as real }
    /** A bucket that is full again by the time its state expires. */
    predicate RefillsBeforeExpiry() { Cap() <= TIMEOUT * refill }
  }

  datatype Saved = Saved(tokens: real, ts: real)

  function Min(a: real, b: real): real { if a < b then a else b }

  /** `_state`: a bucket whose state is missing or expired is full as of now. */
  function StateAt(cfg: Config, saved: Option<Saved>, now: real): Saved {
    if saved.None? || now >= saved.value.ts + TIMEOUT then Saved(cfg.Cap(), now) else saved.value
  }

  /** What the bucket gains in a stretch of time. */
  function Gain(cfg: Config, dt: real): real { dt * cfg.refill }

  function Refilled(cfg: Config, st: Saved, now: real): real {
    Min(cfg.Cap(), st.tokens + Gain(cfg, now - st.ts))
  }

  function Level(cfg: Config, saved: Option<Saved>, now: real): real {
    Refilled(cfg, StateAt(cfg, saved, now), now)
  }

  /** The deciding check of an `acquire`: the one that grants, or the one at the deadline. */
  datatype Attempt = Attempt(at: real, tokens: nat)

  function Serve(cfg: Config, saved: Option<Saved>, attempt: Attempt): (bool, Option<Saved>) {
    var level := Level(cfg, saved, attempt.at);
    if level >= attempt.tokens as real then (true, Some(Saved(level - attempt.tokens as real, attempt.at)))
    else (false, saved)
  }

  ghost predicate Sensible(cfg: Config, saved: Option<Saved>, now: real) {
    saved.Some? ==> 0.0 <= saved.value.tokens <= cfg.Cap() && saved.value.ts <= now
  }

  lemma GainLe(cfg: Config, a: real, b: real)
    requires cfg.Valid() && a <= b
    ensures Gain(cfg, a) <= Gain(cfg, b)
    ensures a >= 0.0 ==> Gain(cfg, a) >= 0.0
  {
    assert (b - a) * cfg.refill >= 0.0;
    if a >= 0.0 { assert a * cfg.refill >= 0.0; }
  }

  lemma GainAdd(cfg: Config, a: real, b: real)
    ensures Gain(cfg, a + b) == Gain(cfg, a) + Gain(cfg, b)
  {
  }

  lemma LevelRange(cfg: Config, saved: Option<Saved>, now: real)
    requires cfg.Valid() && Sensible(cfg, saved, now)
    ensures 0.0 <= Level(cfg, saved, now) <= cfg.Cap()
  {
    GainLe(cfg, 0.0, now - StateAt(cfg, saved, now).ts);
    GainLe(cfg, now - StateAt(cfg, saved, now).ts, now - StateAt(cfg, saved, now).ts);
  }

  /** Over a stretch of time without grants the level rises at least by the refill, up to the capacity. */
  lemma LevelRises(cfg: Config, saved: Option<Saved>, now: real, later: real)
    requires cfg.Valid() && Sensible(cfg, saved, now) && now <= later
    ensures Level(cfg, saved, later) >= Min(cfg.Cap(), Level(cfg, saved, now) + Gain(cfg, later - now))
  {
    if saved.Some? && later < saved.value.ts + TIMEOUT {
      GainAdd(cfg, now - saved.value.ts, later - now);
      assert now - saved.value.ts + (later - now) == later - saved.value.ts;
      GainLe(cfg, later - now, later - now);
    } else {
      GainLe(cfg, later - later, later - later);
    }
  }

  function Ceil(x: real): int { -((-x).Floor) }

  /** Half-second sleeps that fit before the deadline. */
  function Sleeps(remaining: real, nap: real): nat
    requires nap > 0.0
  {
    if remaining <= 0.0 then 0 else if Ceil(remaining / nap) < 0 then 0 else Ceil(remaining / nap)
  }

  lemma SleepsShrink(remaining: real, nap: real, slept: real)
    requires nap > 0.0 && remaining > 0.0 && slept >= nap
    ensures Sleeps(remaining - slept, nap) < Sleeps(remaining, nap)
  {
    QuotientShrinks(remaining, nap, slept);
    CeilShrinks(remaining / nap, (remaining - slept) / nap);
    if remaining - slept > 0.0 { PositiveQuotient(remaining - slept, nap); }
  }

  lemma PositiveQuotient(a: real, b: real)
    requires a > 0.0 && b > 0.0
    ensures a / b > 0.0
  {
  }

  lemma QuotientShrinks(remaining: real, nap: real, slept: real)
    requires nap > 0.0 && remaining > 0.0 && slept >= nap
    ensures remaining / nap > 0.0 && (remaining - slept) / nap <= remaining / nap - 1.0
  {
    PositiveQuotient(remaining, nap);
    assert slept / nap >= 1.0;
    assert (remaining - slept) / nap == remaining / nap - slept / nap;
  }

  lemma CeilShrinks(x: real, y: real)
    requires x > 0.0 && y <= x - 1.0
    ensures Ceil(x) > 0 && Ceil(y) < Ceil(x)
  {
  }

  function WaitFor(cfg: Config, tokens: nat, cur: real): real {
    (tokens as real - cur) / (if cfg.refill > 0.01 then cfg.refill else 0.01)
  }

  /** The least a sleep lasts that does not end the waiting. */
  function NapOf(cfg: Config, tokens: nat, tick: real): (nap: real)
    requires tick >= 0.0 && (cfg.refill < 0.01 ==> tick > 0.0)
    ensures nap > 0.0
  {
    if cfg.refill < 0.01 then tick
    else if tokens <= cfg.capacity then 0.5
    else PositiveInverse(cfg.refill); Min(0.5, 1.0 / cfg.refill)
  }

  lemma PositiveInverse(x: real)
    requires x > 0.0
    ensures 1.0 / x > 0.0
  {
  }

  /** No sleep lasts more than slack longer than asked. */
  ghost predicate Punctual(oversleep: nat -> real, slack: real) {
    forall i {:trigger oversleep(i)} :: oversleep(i) <= slack
  }

  class Bucket {
    const cfg: Config
    var saved: Option<Saved>

    constructor (cfg: Config)
      ensures this.cfg == cfg && saved == None
    {
      this.cfg := cfg;
      saved := None;
    }

    /** `_state` and the refill since then. */
    method Available(now: real) returns (cur: real)
      requires cfg.Valid() && Sensible(cfg, saved, now)
      ensures cur == Level(cfg, saved, now) && 0.0 <= cur <= cfg.Cap()
    {
      var st := StateAt(cfg, saved, now);
      cur := Min(cfg.Cap(), st.tokens + Gain(cfg, now - st.ts));
      LevelRange(cfg, saved, now);
    }

    /** `acquire` started at a clock reading; the i-th sleep lasts oversleep(i) longer than asked.
        One worker: nobody else writes the state meanwhile.  Below a refill of 0.01 the computed
        waits alone can be ever shorter, so there every sleep takes at least one tick of the clock more.
        When no sleep lasts more than slack too long, the answer comes less than half a second and
        slack after the deadline, and at most slack after the moment at which the refill covers the request. */
    method Acquire(tokens: nat, timeout: real, start: real, oversleep: nat -> real, ghost tick: real, ghost slack: real)
      returns (granted: bool, at: real, iterations: nat)
      requires cfg.Valid() && Sensible(cfg, saved, start)
      requires forall i {:trigger oversleep(i)} :: oversleep(i) >= tick
      requires tick >= 0.0 && (cfg.refill < 0.01 ==> tick > 0.0)
      modifies this
      ensures at >= start && (granted, saved) == Serve(cfg, old(saved), Attempt(at, tokens))
      ensures !granted ==> at >= start + timeout
      ensures Level(cfg, old(saved), start) >= tokens as real ==> granted && at == start && iterations == 1
      ensures Punctual(oversleep, slack) ==> at == start || at < start + timeout + 0.5 + slack
      ensures Punctual(oversleep, slack) && cfg.refill >= 0.01 && tokens <= cfg.capacity ==>
                at == start || at <= start + (tokens as real - Level(cfg, old(saved), start)) / cfg.refill + slack
      ensures cfg.refill >= 0.01 && tokens <= cfg.capacity ==> iterations <= Sleeps(timeout, 0.5) + 2
      ensures tokens <= cfg.capacity && tokens as real - Level(cfg, old(saved), start) <= Gain(cfg, timeout) ==> granted
      ensures tokens > cfg.capacity ==> !granted
      ensures Sensible(cfg, saved, at)
    {
      at := start;
      iterations := 0;
      var deadline := start + timeout;
      ghost var nap := NapOf(cfg, tokens, tick);
      ghost var napped := false;
      while true
        invariant at >= start && saved == old(saved) && iterations >= 0
        invariant at == start ==> iterations == 0
        invariant at != start ==> Level(cfg, saved, start) < tokens as real
        invariant Punctual(oversleep, slack) ==> at == start || at < deadline + 0.5 + slack
        invariant Punctual(oversleep, slack) && cfg.refill >= 0.01 && tokens <= cfg.capacity ==>
                    at == start || at <= start + WaitFor(cfg, tokens, Level(cfg, saved, start)) + slack
        invariant napped ==> tokens <= cfg.capacity && Level(cfg, saved, at) >= tokens as real
        invariant cfg.refill >= 0.01 && tokens <= cfg.capacity ==>
                  iterations + Sleeps(deadline - at, 0.5) <= Sleeps(timeout, 0.5) + (if napped then 1 else 0)
        decreases !napped, Sleeps(deadline - at, nap)
      {
        var cur := Available(at);
        iterations := iterations + 1;
        if cur >= tokens as real {
          saved := Some(Saved(cur - tokens as real, at));
          return true, at, iterations;
        }
        if at >= deadline {
          DeadlineLevel(cfg, saved, start, at, timeout);
          return false, at, iterations;
        }
        var wait := WaitFor(cfg, tokens, cur);
        var sleep := Min(wait, 0.5) + oversleep(iterations - 1);
        ghost var before := at;
        at := at + sleep;
        SleptEnough(cfg, saved, tokens, start, before, wait);
        napped := Slept(cfg, saved, tokens, deadline, before, at, wait, tick);
      }
    }
  }

  /** At or after the deadline the level has gained at least the refill over the timeout. */
  lemma DeadlineLevel(cfg: Config, saved: Option<Saved>, start: real, at: real, timeout: real)
    requires cfg.Valid() && Sensible(cfg, saved, start) && start <= at && start + timeout <= at
    ensures Level(cfg, saved, at) >= Min(cfg.Cap(), Level(cfg, saved, start) + Gain(cfg, timeout))
  {
    LevelRises(cfg, saved, start, at);
    GainLe(cfg, timeout, at - start);
  }

  /** One sleep: either it was cut short to exactly what is missing, and then enough is there
      afterwards, or it used up a full nap of the remaining time. */
  lemma Slept(cfg: Config, saved: Option<Saved>, tokens: nat, deadline: real, before: real, at: real, wait: real,
              tick: real)
    returns (enough: bool)
    requires cfg.Valid() && tick >= 0.0 && (cfg.refill < 0.01 ==> tick > 0.0) && Sensible(cfg, saved, before)
             && before < deadline
    requires Level(cfg, saved, before) < tokens as real
    requires wait == WaitFor(cfg, tokens, Level(cfg, saved, before)) && at >= before + Min(wait, 0.5) + tick
    ensures at >= before
    ensures var nap := NapOf(cfg, tokens, tick);
            if enough then tokens <= cfg.capacity && Level(cfg, saved, at) >= tokens as real
                           && Sleeps(deadline - at, nap) <= Sleeps(deadline - before, nap)
            else Sleeps(deadline - at, nap) < Sleeps(deadline - before, nap)
  {
    LevelRange(cfg, saved, before);
    var nap := NapOf(cfg, tokens, tick);
    WaitIsDeficit(cfg, tokens, Level(cfg, saved, before));
    enough := cfg.refill >= 0.01 && tokens <= cfg.capacity && wait < 0.5;
    if enough {
      ShortSleepSuffices(cfg, saved, before, at, tokens, wait);
      SleepsMonotone(deadline - before, deadline - at, nap);
    } else {
      if cfg.refill >= 0.01 && tokens > cfg.capacity {
        LongWait(cfg, tokens, Level(cfg, saved, before), wait);
      }
      SleepsShrink(deadline - before, nap, at - before);
    }
  }

  /** The computed wait ends no later than the moment at which the refill since the start covers the request. */
  lemma SleptEnough(cfg: Config, saved: Option<Saved>, tokens: nat, start: real, before: real, wait: real)
    requires cfg.Valid() && Sensible(cfg, saved, start) && start <= before && Level(cfg, saved, before) < tokens as real
    requires wait == WaitFor(cfg, tokens, Level(cfg, saved, before))
    ensures wait > 0.0
    ensures cfg.refill >= 0.01 && tokens <= cfg.capacity ==>
              Level(cfg, saved, start) < tokens as real
              && before + wait <= start + WaitFor(cfg, tokens, Level(cfg, saved, start))
  {
    WaitIsDeficit(cfg, tokens, Level(cfg, saved, before));
    if cfg.refill >= 0.01 && tokens <= cfg.capacity {
      LevelRises(cfg, saved, start, before);
      GainLe(cfg, before - start, before - start);
      WaitIsDeficit(cfg, tokens, Level(cfg, saved, start));
      QuotientLe(tokens as real - Level(cfg, saved, before), tokens as real - Level(cfg, saved, start),
                 before - start, cfg.refill);
    }
  }

  lemma QuotientLe(a: real, b: real, t: real, c: real)
    requires c > 0.0 && a <= b - t * c
    ensures a / c + t <= b / c
  {
    assert b / c - a / c - t == (b - a - t * c) / c;
  }

  lemma WaitIsDeficit(cfg: Config, tokens: nat, cur: real)
    requires cur < tokens as real
    ensures WaitFor(cfg, tokens, cur) > 0.0
    ensures cfg.refill >= 0.01 ==> WaitFor(cfg, tokens, cur) == (tokens as real - cur) / cfg.refill
  {
  }

  lemma SleepsMonotone(a: real, b: real, nap: real)
    requires nap > 0.0 && b <= a
    ensures Sleeps(b, nap) <= Sleeps(a, nap)
  {
    if b > 0.0 {
      assert b / nap <= a / nap by { assert a / nap - b / nap == (a - b) / nap; }
    }
  }

  /** A sleep of the computed wait brings the level up to the request. */
  lemma ShortSleepSuffices(cfg: Config, saved: Option<Saved>, now: real, later: real, tokens: nat, wait: real)
    requires cfg.refill >= 0.01 && Sensible(cfg, saved, now) && tokens <= cfg.capacity
    requires Level(cfg, saved, now) < tokens as real
    requires wait == (tokens as real - Level(cfg, saved, now)) / cfg.refill && later >= now + wait
    ensures Level(cfg, saved, later) >= tokens as real
  {
    assert Gain(cfg, wait) == tokens as real - Level(cfg, saved, now);
    assert wait >= 0.0;
    LevelRises(cfg, saved, now, later);
    GainLe(cfg, wait, later - now);
  }

  lemma LongWait(cfg: Config, tokens: nat, cur: real, wait: real)
    requires cfg.refill >= 0.01 && tokens > cfg.capacity && cur <= cfg.Cap()
    requires wait == (tokens as real - cur) / cfg.refill
    ensures wait >= 1.0 / cfg.refill
  {
    var d := tokens as real - cur;
    assert d >= 1.0;
    assert wait - 1.0 / cfg.refill == (d - 1.0) / cfg.refill;
  }

  // ---------------------------------------------------------------- runs of acquires

  ghost predicate Ordered(attempts: seq<Attempt>) {
    forall i, j :: 0 <= i < j < |attempts| ==> attempts[i].at <= attempts[j].at
  }

  /** The state after a run. */
  function After(cfg: Config, saved: Option<Saved>, attempts: seq<Attempt>): Option<Saved>
    decreases attempts
  {
    if attempts == [] then saved else After(cfg, Serve(cfg, saved, attempts[0]).1, attempts[1..])
  }

  /** The tokens granted by a run. */
  function Granted(cfg: Config, saved: Option<Saved>, attempts: seq<Attempt>): real
    decreases attempts
  {
    if attempts == [] then 0.0
    else
      var (granted, saved') := Serve(cfg, saved, attempts[0]);
      (if granted then attempts[0].tokens as real else 0.0) + Granted(cfg, saved', attempts[1..])
  }

  /** Serving takes exactly the granted tokens out of the level and keeps the state sensible. */
  lemma ServeConserves(cfg: Config, saved: Option<Saved>, attempt: Attempt)
    requires cfg.Valid() && Sensible(cfg, saved, attempt.at)
    ensures var (granted, saved') := Serve(cfg, saved, attempt);
            && Sensible(cfg, saved', attempt.at)
            && Level(cfg, saved', attempt.at) + (if granted then attempt.tokens as real else 0.0)
              == Level(cfg, saved, attempt.at)
  {
    LevelRange(cfg, saved, attempt.at);
    var (granted, saved') := Serve(cfg, saved, attempt);
    if granted {
      GainLe(cfg, attempt.at - attempt.at, attempt.at - attempt.at);
      assert Gain(cfg, attempt.at - attempt.at) == 0.0;
      assert StateAt(cfg, saved', attempt.at) == saved'.value;
    }
  }

  lemma {:induction false} StaysSensible(cfg: Config, saved: Option<Saved>, attempts: seq<Attempt>, now: real)
    requires cfg.Valid() && Ordered(attempts)
    requires attempts == [] || Sensible(cfg, saved, attempts[0].at)
    requires if attempts == [] then Sensible(cfg, saved, now) else attempts[|attempts| - 1].at <= now
    ensures Sensible(cfg, After(cfg, saved, attempts), now)
    decreases attempts
  {
    if attempts != [] {
      ServeConserves(cfg, saved, attempts[0]);
      StaysSensible(cfg, Serve(cfg, saved, attempts[0]).1, attempts[1..], now);
    }
  }

  /** Capping a gain: before and after it, with the gain split in two. */
  lemma CappedRise(cap: real, tokens: real, first: real, second: real)
    requires second >= 0.0
    ensures Min(cap, tokens + (first + second)) <= Min(cap, tokens + first) + second
  {
  }

  lemma AliveRises(cfg: Config, saved: Option<Saved>, now: real, later: real)
    requires cfg.Valid() && Sensible(cfg, saved, now) && now <= later
    requires saved.Some? && later < saved.value.ts + TIMEOUT
    ensures Level(cfg, saved, later) <= Level(cfg, saved, now) + Gain(cfg, later - now)
  {
    var st := saved.value;
    var first, second := Gain(cfg, now - st.ts), Gain(cfg, later - now);
    GainLe(cfg, later - now, later - now);
    GainSplit(cfg, st.ts, now, later);
    CappedRise(cfg.Cap(), st.tokens, first, second);
    assert Level(cfg, saved, later) == Min(cfg.Cap(), st.tokens + Gain(cfg, later - st.ts));
  }

  lemma GainSplit(cfg: Config, a: real, b: real, c: real)
    ensures Gain(cfg, c - a) == Gain(cfg, b - a) + Gain(cfg, c - b)
  {
    GainAdd(cfg, b - a, c - b);
    assert b - a + (c - b) == c - a;
  }

  lemma ExpiredRises(cfg: Config, saved: Option<Saved>, now: real, later: real)
    requires cfg.Valid() && cfg.RefillsBeforeExpiry() && Sensible(cfg, saved, now) && now <= later
    requires saved.Some? && now < saved.value.ts + TIMEOUT <= later
    ensures cfg.Cap() <= Level(cfg, saved, now) + Gain(cfg, later - now)
  {
    var st := saved.value;
    var first, second := Gain(cfg, now - st.ts), Gain(cfg, later - now);
    GainLe(cfg, later - now, later - now);
    GainSplit(cfg, st.ts, now, later);
    GainLe(cfg, TIMEOUT, later - st.ts);
    CappedRise(cfg.Cap(), st.tokens, first, second);
    assert first + second >= Gain(cfg, TIMEOUT) >= cfg.Cap();
    assert Level(cfg, saved, now) == Min(cfg.Cap(), st.tokens + first);
  }

  lemma LevelAtMostFull(cfg: Config, saved: Option<Saved>, now: real)
    ensures Level(cfg, saved, now) <= cfg.Cap()
    ensures saved.None? || now >= saved.value.ts + TIMEOUT ==> Level(cfg, saved, now) == cfg.Cap()
  {
    assert Gain(cfg, now - now) == 0.0;
  }

  /** With a bucket that refills before its state expires, waiting gains no more
      than the refill: forgetting is harmless. */
  lemma LevelRisesAtMost(cfg: Config, saved: Option<Saved>, now: real, later: real)
    requires cfg.Valid() && cfg.RefillsBeforeExpiry() && Sensible(cfg, saved, now) && now <= later
    ensures Level(cfg, saved, later) <= Level(cfg, saved, now) + Gain(cfg, later - now)
  {
    LevelAtMostFull(cfg, saved, now);
    LevelAtMostFull(cfg, saved, later);
    GainLe(cfg, later - now, later - now);
    if saved.Some? && now < saved.value.ts + TIMEOUT {
      if later < saved.value.ts + TIMEOUT {
        AliveRises(cfg, saved, now, later);
      } else {
        ExpiredRises(cfg, saved, now, later);
      }
    }
  }

  /** Level plus grants never exceed the initial level plus the refill of the elapsed time. */
  lemma {:induction false} Potential(cfg: Config, saved: Option<Saved>, attempts: seq<Attempt>)
    requires cfg.Valid() && cfg.RefillsBeforeExpiry() && Ordered(attempts) && attempts != []
    requires Sensible(cfg, saved, attempts[0].at)
    ensures Granted(cfg, saved, attempts) <=
            Level(cfg, saved, attempts[0].at) + Gain(cfg, attempts[|attempts| - 1].at - attempts[0].at)
    decreases attempts
  {
    var first, last := attempts[0].at, attempts[|attempts| - 1].at;
    ServeConserves(cfg, saved, attempts[0]);
    var saved' := Serve(cfg, saved, attempts[0]).1;
    if |attempts| == 1 {
      assert Granted(cfg, saved', attempts[1..]) == 0.0;
      LevelRange(cfg, saved', first);
      GainLe(cfg, last - first, last - first);
    } else {
      var second := attempts[1].at;
      Potential(cfg, saved', attempts[1..]);
      LevelRisesAtMost(cfg, saved', first, second);
      GainAdd(cfg, second - first, last - second);
      assert second - first + (last - second) == last - first;
    }
  }

  /** In any run from an empty cache, the tokens granted by the attempts i..j stay within the
      capacity plus the refill of the time between them. */
  ghost predicate RateBounded(cfg: Config) {
    forall attempts: seq<Attempt>, i: nat, j: nat :: Ordered(attempts) && i <= j < |attempts| ==>
      WindowBounded(cfg, attempts, i, j)
  }

  ghost predicate WindowBounded(cfg: Config, attempts: seq<Attempt>, i: nat, j: nat)
    requires i <= j < |attempts|
  {
    Granted(cfg, After(cfg, None, attempts[..i]), attempts[i..j + 1])
      <= cfg.Cap() + Gain(cfg, attempts[j].at - attempts[i].at)
  }

  lemma WindowHolds(cfg: Config, attempts: seq<Attempt>, i: nat, j: nat)
    requires cfg.Valid() && cfg.RefillsBeforeExpiry() && Ordered(attempts) && i <= j < |attempts|
    ensures WindowBounded(cfg, attempts, i, j)
  {
    var saved, window := After(cfg, None, attempts[..i]), attempts[i..j + 1];
    StaysSensible(cfg, None, attempts[..i], attempts[i].at);
    LevelRange(cfg, saved, attempts[i].at);
    Potential(cfg, saved, window);
  }

  /** A bucket of its whole capacity taken at time zero and again when the state has just expired. */
  function TwiceFull(cfg: Config): seq<Attempt> { [Attempt(0.0, cfg.capacity), Attempt(TIMEOUT, cfg.capacity)] }

  lemma TwiceFullGranted(cfg: Config)
    requires cfg.Valid()
    ensures Ordered(TwiceFull(cfg)) && Granted(cfg, None, TwiceFull(cfg)) == 2.0 * cfg.Cap()
  {
    var attempts := TwiceFull(cfg);
    assert Gain(cfg, 0.0 - 0.0) == 0.0 && Gain(cfg, TIMEOUT - TIMEOUT) == 0.0;
    var saved := Some(Saved(0.0, 0.0));
    assert Serve(cfg, None, attempts[0]) == (true, saved);
    assert Serve(cfg, saved, attempts[1]).0;
    assert attempts[1..] == [attempts[1]] && attempts[1..][1..] == [];
    assert Granted(cfg, saved, attempts[1..]) == cfg.Cap() + Granted(cfg, Serve(cfg, saved, attempts[1]).1, []);
  }

  /** The rate limit holds over every window of every run exactly when the bucket refills before its state expires. */
  lemma RateTheorem(cfg: Config)
    requires cfg.Valid()
    ensures RateBounded(cfg) <==> cfg.capacity as real <= 3600.0 * cfg.refill
  {
    if cfg.RefillsBeforeExpiry() {
      forall attempts: seq<Attempt>, i: nat, j: nat | Ordered(attempts) && i <= j < |attempts|
        ensures WindowBounded(cfg, attempts, i, j)
      {
        WindowHolds(cfg, attempts, i, j);
      }
    }
    if RateBounded(cfg) {
      var attempts := TwiceFull(cfg);
      TwiceFullGranted(cfg);
      assert attempts[..0] == [] && attempts[0..2] == attempts;
      assert WindowBounded(cfg, attempts, 0, 1);
      assert Gain(cfg, TIMEOUT - 0.0) == TIMEOUT * cfg.refill;
    }
  }

  // ---------------------------------------------------------------- forgetting is unobservable

  /** A bucket that never forgets its state once it has one. */
  function ServeRemembering(cfg: Config, saved: Option<Saved>, attempt: Attempt): (bool, Option<Saved>) {
    var level := if saved.None? then cfg.Cap() else Refilled(cfg, saved.value, attempt.at);
    if level >= attempt.tokens as real then (true, Some(Saved(level - attempt.tokens as real, attempt.at)))
    else (false, saved)
  }

  /** The answers of a run, by a bucket that forgets or by one that does not. */
  function Answers(cfg: Config, forgets: bool, saved: Option<Saved>, attempts: seq<Attempt>): seq<bool>
    decreases attempts
  {
    if attempts == [] then []
    else
      var (granted, saved') :=
        if forgets then Serve(cfg, saved, attempts[0]) else ServeRemembering(cfg, saved, attempts[0]);
      [granted] + Answers(cfg, forgets, saved', attempts[1..])
  }

  predicate SameAnswers(cfg: Config, attempts: seq<Attempt>) {
    Answers(cfg, true, None, attempts) == Answers(cfg, false, None, attempts)
  }

  ghost predicate ForgettingUnobservable(cfg: Config) {
    forall attempts: seq<Attempt> :: Ordered(attempts) ==> SameAnswers(cfg, attempts)
  }

  lemma ServeSame(cfg: Config, saved: Option<Saved>, attempt: Attempt)
    requires cfg.Valid() && cfg.RefillsBeforeExpiry() && Sensible(cfg, saved, attempt.at)
    ensures Serve(cfg, saved, attempt) == ServeRemembering(cfg, saved, attempt)
  {
    assert Gain(cfg, attempt.at - attempt.at) == 0.0;
    if saved.Some? && attempt.at >= saved.value.ts + TIMEOUT {
      GainLe(cfg, TIMEOUT, attempt.at - saved.value.ts);
    }
  }

  lemma {:induction false} AnswersSame(cfg: Config, saved: Option<Saved>, attempts: seq<Attempt>)
    requires cfg.Valid() && cfg.RefillsBeforeExpiry() && Ordered(attempts)
    requires attempts != [] ==> Sensible(cfg, saved, attempts[0].at)
    ensures Answers(cfg, true, saved, attempts) == Answers(cfg, false, saved, attempts)
    decreases attempts
  {
    if attempts != [] {
      ServeSame(cfg, saved, attempts[0]);
      ServeConserves(cfg, saved, attempts[0]);
      AnswersSame(cfg, Serve(cfg, saved, attempts[0]).1, attempts[1..]);
    }
  }

  /** Losing the state after its timeout changes no answer of any run exactly when the bucket refills before that. */
  lemma ExpiryTheorem(cfg: Config)
    requires cfg.Valid()
    ensures ForgettingUnobservable(cfg) <==> cfg.capacity as real <= 3600.0 * cfg.refill
  {
    if cfg.RefillsBeforeExpiry() {
      forall attempts: seq<Attempt> | Ordered(attempts)
        ensures SameAnswers(cfg, attempts)
      {
        AnswersSame(cfg, None, attempts);
      }
    }
    if ForgettingUnobservable(cfg) && !cfg.RefillsBeforeExpiry() {
      TwiceFullDiffers(cfg);
    }
  }

  lemma TwiceFullDiffers(cfg: Config)
    requires cfg.Valid() && !cfg.RefillsBeforeExpiry()
    ensures Ordered(TwiceFull(cfg)) && !SameAnswers(cfg, TwiceFull(cfg))
  {
    var attempts := TwiceFull(cfg);
    assert Gain(cfg, 0.0 - 0.0) == 0.0 && Gain(cfg, TIMEOUT - TIMEOUT) == 0.0;
    assert Gain(cfg, TIMEOUT - 0.0) == TIMEOUT * cfg.refill;
    var saved := Some(Saved(0.0, 0.0));
    assert Serve(cfg, None, attempts[0]) == ServeRemembering(cfg, None, attempts[0]) == (true, saved);
    assert Serve(cfg, saved, attempts[1]).0 && !ServeRemembering(cfg, saved, attempts[1]).0;
    var rest := attempts[1..];
    assert rest[0] == attempts[1];
    assert Answers(cfg, true, saved, rest)[0] && !Answers(cfg, false, saved, rest)[0];
    assert Answers(cfg, true, None, attempts)[1] == Answers(cfg, true, saved, rest)[0];
    assert Answers(cfg, false, None, attempts)[1] == Answers(cfg, false, saved, rest)[0];
  }
}
