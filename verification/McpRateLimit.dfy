/**
 The fixed-window limiter of the MCP gateway (`_enforce_rate_limit`): a cached counter for each
 integration and clock minute, which expires 120 seconds after it was last written.
 */
module McpRateLimit {
  const PER_MINUTE := 60
  const TTL := 120.0

  datatype Key = Key(integration: nat, minute: int)
  datatype Counter = Counter(n: nat, expires: real)
  type Cache = map<Key, Counter>

  datatype Call = Call(integration: nat, at: real)

  function Minute(at: real): int { (at / 60.0).Floor }

  function KeyOf(call: Call): Key { Key(call.integration, Minute(call.at)) }

  /** `cache.get(key) or 0` */
  function Current(cache: Cache, key: Key, now: real): nat {
    if key in cache && now < cache[key].expires then cache[key].n else 0
  }

  /** One call: whether it is admitted, and the cache afterwards. */
  function Serve(cache: Cache, call: Call): (bool, Cache) {
    var n := Current(cache, KeyOf(call), call.at);
    if n >= PER_MINUTE then (false, cache) else (true, cache[KeyOf(call) := Counter(n + 1, call.at + TTL)])
  }

  class Gateway {
    var cache: Cache

    constructor ()
      ensures cache == map[]
    {
      cache := map[];
    }

    method EnforceRateLimit(integration: nat, now: real) returns (admitted: bool)
      modifies this
      ensures (admitted, cache) == Serve(old(cache), Call(integration, now))
    {
      var key := Key(integration, Minute(now));
      var n := Current(cache, key, now);
      if n >= PER_MINUTE {
        return false;
      }
      cache := cache[key := Counter(n + 1, now + TTL)];
      admitted := true;
    }
  }

  // ---------------------------------------------------------------- runs

  function After(calls: seq<Call>): Cache {
    if calls == [] then map[] else Serve(After(calls[..|calls| - 1]), calls[|calls| - 1]).1
  }

  /** Whether the last of the calls was admitted. */
  predicate LastAdmitted(calls: seq<Call>)
    requires calls != []
  {
    Serve(After(calls[..|calls| - 1]), calls[|calls| - 1]).0
  }

  /** How many calls of a run were admitted under a key. */
  function AdmittedUnder(calls: seq<Call>, key: Key): nat {
    if calls == [] then 0
    else
      var init, last := calls[..|calls| - 1], calls[|calls| - 1];
      AdmittedUnder(init, key) + if KeyOf(last) == key && LastAdmitted(calls) then 1 else 0
  }

  /** How many calls of an integration were admitted at times from..from+60. */
  function AdmittedWithin(calls: seq<Call>, integration: nat, from: real): nat {
    if calls == [] then 0
    else
      var last := calls[|calls| - 1];
      AdmittedWithin(calls[..|calls| - 1], integration, from)
      + if last.integration == integration && from <= last.at <= from + 60.0 && LastAdmitted(calls) then 1 else 0
  }

  lemma MinuteBounds(at: real)
    ensures 60.0 * Minute(at) as real <= at < 60.0 * (Minute(at) + 1) as real
  {
    var q := at / 60.0;
    assert q.Floor as real <= q < q.Floor as real + 1.0;
  }

  /** A counter holds the number of calls admitted in its minute, and outlives that minute. */
  lemma {:induction false} CounterCounts(calls: seq<Call>, key: Key)
    ensures var cache := After(calls);
            if key in cache then cache[key].n == AdmittedUnder(calls, key) <= PER_MINUTE
                                 && cache[key].expires >= 60.0 * (key.minute + 2) as real
            else AdmittedUnder(calls, key) == 0
  {
    if calls != [] {
      var init, last := calls[..|calls| - 1], calls[|calls| - 1];
      CounterCounts(init, key);
      MinuteBounds(last.at);
    }
  }

  /** Over every sequence of calls, whatever the clock does, a call is admitted exactly when fewer
      than 60 calls of its integration were admitted in its clock minute before. */
  lemma AdmittedIff(calls: seq<Call>, call: Call)
    ensures LastAdmitted(calls + [call]) <==> AdmittedUnder(calls, KeyOf(call)) < 60
  {
    CounterCounts(calls, KeyOf(call));
    MinuteBounds(call.at);
    assert (calls + [call])[..|calls|] == calls;
  }

  lemma {:induction false} WithinTwoMinutes(calls: seq<Call>, integration: nat, from: real)
    ensures AdmittedWithin(calls, integration, from)
            <= AdmittedUnder(calls, Key(integration, Minute(from)))
              + AdmittedUnder(calls, Key(integration, Minute(from) + 1))
  {
    if calls != [] {
      var last := calls[|calls| - 1];
      WithinTwoMinutes(calls[..|calls| - 1], integration, from);
      MinuteBounds(from);
      MinuteBounds(last.at);
      if from <= last.at <= from + 60.0 {
        assert Minute(last.at) == Minute(from) || Minute(last.at) == Minute(from) + 1;
      }
    }
  }

  /** At most 60 calls of an integration are admitted in any clock minute, and at most 120 in any 60 seconds. */
  lemma WindowBounds(calls: seq<Call>, integration: nat, from: real)
    ensures AdmittedUnder(calls, Key(integration, Minute(from))) <= 60
    ensures AdmittedWithin(calls, integration, from) <= 120
  {
    WithinTwoMinutes(calls, integration, from);
    CounterCounts(calls, Key(integration, Minute(from)));
    CounterCounts(calls, Key(integration, Minute(from) + 1));
  }
}
