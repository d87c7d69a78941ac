/**
 One connector sync run (`BaseSync.run`) for Pipedrive deals: page through the source, filter by
 the saved cursor, upsert row by row, save the run and advance the cursor.
 */
module ConnectorSync {
  import opened Options
  import opened Stamps

  // ---------------------------------------------------------------- data

  /** A deal as the API returns it; a missing `update_time` is the empty string. */
  datatype Deal = Deal(id: int, update: string, title: string, payload: string)

  /** A mirror row: the raw payload and the columns cut to their widths. */
  datatype Row = Row(raw: Deal, title: string)

  function ToRow(deal: Deal): Row { Row(deal, if |deal.title| > 512 then deal.title[..512] else deal.title) }

  type Mirror = map<int, Row>

  datatype Status = Completed | Partial | Failed

  /** The numbers of a run, as saved in its row or reported in its outcome. */
  datatype Report = Report(status: Status, fetched: nat, created: nat, updated: nat, skipped: nat, errors: nat,
                           cursorAfter: string)

  datatype Counters = Counters(fetched: nat, created: nat, updated: nat, skipped: nat, errors: nat, cursorAfter: string)

  const ZERO := Counters(0, 0, 0, 0, 0, "")

  // ---------------------------------------------------------------- the client

  /** The deals a request for `limit` deals from `start` on returns, and whether more follow. */
  function Page(listed: seq<Deal>, start: nat, limit: nat): (seq<Deal>, bool) {
    var lo := if start < |listed| then start else |listed|;
    var hi := if start + limit < |listed| then start + limit else |listed|;
    (listed[lo..hi], start + limit < |listed|)
  }

  predicate Recent(since: string, deal: Deal) { since == "" || Le(since, deal.update) }

  function Filter(listed: seq<Deal>, since: string): seq<Deal> {
    if listed == [] then []
    else if Recent(since, listed[0]) then [listed[0]] + Filter(listed[1..], since)
    else Filter(listed[1..], since)
  }

  lemma {:induction false} FilterAppend(a: seq<Deal>, b: seq<Deal>, since: string)
    ensures Filter(a + b, since) == Filter(a, since) + Filter(b, since)
  {
    if a == [] { assert a + b == b; } else { assert (a + b)[1..] == a[1..] + b; FilterAppend(a[1..], b, since); }
  }

  function Front(listed: seq<Deal>, n: nat): seq<Deal> { if n < |listed| then listed[..n] else listed }

  /** A page follows on what the pages before it covered, and the last one completes the list. */
  lemma PageFiltered(listed: seq<Deal>, start: nat, limit: nat, since: string)
    ensures var (chunk, more) := Page(listed, start, limit);
            && Filter(Front(listed, start), since) + Filter(chunk, since) == Filter(Front(listed, start + limit), since)
            && (!more ==> Front(listed, start + limit) == listed)
  {
    FilterAppend(Front(listed, start), Page(listed, start, limit).0, since);
    assert Front(listed, start) + Page(listed, start, limit).0 == Front(listed, start + limit);
  }

  /** `iter_deals` against a source that does not change meanwhile; a request may fail, and the
      server may or may not say where the next page starts.  The first request is always made, any
      other when the pages before it do not cover the list. */
  method IterDeals(listed: seq<Deal>, since: string, pageSize: nat, failing: Option<nat>, tellsNext: bool)
    returns (r: Option<seq<Deal>>)
    requires pageSize > 0
    ensures r.Some? ==> r.value == Filter(listed, since)
    ensures r.None? <==> failing.Some? && (failing.value == 0 || failing.value * pageSize < |listed|)
  {
    var out := [];
    var start := 0;
    var request := 0;
    while true
      invariant out == Filter(Front(listed, start), since)
      invariant start == 0 || start < |listed|
      invariant start == Offset(request, pageSize)
      invariant failing.Some? ==> request <= failing.value
      decreases |listed| - start
    {
      if failing == Some(request) {
        OffsetIs(request, pageSize);
        return None;
      }
      var (chunk, more) := Page(listed, start, pageSize);
      PageFiltered(listed, start, pageSize, since);
      out := out + Filter(chunk, since);
      if !more {
        if failing.Some? { OffsetNext(request, failing.value, pageSize); }
        break;
      }
      var nextStart := if tellsNext then Some(start + pageSize) else None;
      start := if nextStart.Some? && nextStart.value != 0 then nextStart.value else start + pageSize;
      OffsetNext(request, request + 1, pageSize);
      request := request + 1;
    }
    r := Some(out);
  }

  /** Where a request starts when every request before it asked for a whole page. */
  function Offset(request: nat, pageSize: nat): nat {
    if request == 0 then 0 else Offset(request - 1, pageSize) + pageSize
  }

  lemma {:induction false} OffsetIs(request: nat, pageSize: nat)
    ensures Offset(request, pageSize) == request * pageSize
  {
    if request > 0 {
      OffsetIs(request - 1, pageSize);
      assert request * pageSize == (request - 1) * pageSize + pageSize;
    }
  }

  lemma {:induction false} OffsetNext(request: nat, later: nat, pageSize: nat)
    requires request < later
    ensures Offset(later, pageSize) >= Offset(request, pageSize) + pageSize
    ensures Offset(later, pageSize) == later * pageSize
    ensures later == request + 1 ==> Offset(later, pageSize) == Offset(request, pageSize) + pageSize
  {
    OffsetIs(later, pageSize);
    if later > request + 1 { OffsetNext(request, later - 1, pageSize); }
  }

  // ---------------------------------------------------------------- specification of a run

  /** `_persist_one` for a deal; a failing row is rolled back and counted. */
  function PersistOne(mirror: Mirror, c: Counters, deal: Deal, fails: bool): (Mirror, Counters) {
    if fails then (mirror, c.(fetched := c.fetched + 1, errors := c.errors + 1))
    else
      var c1 := c.(fetched := c.fetched + 1, cursorAfter := Max(c.cursorAfter, deal.update));
      (mirror[deal.id := ToRow(deal)],
       if deal.id in mirror then c1.(updated := c.updated + 1) else c1.(created := c.created + 1))
  }

  /** The first n fetched deals persisted; fails(k) tells whether row k raises. */
  function PersistAll(mirror: Mirror, deals: seq<Deal>, fails: nat -> bool, n: nat): (Mirror, Counters)
    requires n <= |deals|
  {
    if n == 0 then (mirror, ZERO)
    else
      var (m, c) := PersistAll(mirror, deals, fails, n - 1);
      PersistOne(m, c, deals[n - 1], fails(n - 1))
  }

  /** How a run meets the outside world: the fetched deals (or a failing fetch), the row at which
      the rate limiter times out, and the rows whose persistence raises. */
  datatype World = World(fetched: Option<seq<Deal>>, limited: Option<nat>, fails: nat -> bool) {
    predicate Interrupted() { fetched.None? || (limited.Some? && limited.value < |fetched.value|) }
    function Reached(): nat { if fetched.None? then 0 else if Interrupted() then limited.value else |fetched.value| }
  }

  /** Mirror, cursor, saved row and reported outcome after a run. */
  datatype Result = Result(mirror: Mirror, cursor: string, saved: Report, outcome: Report)

  function ReportOf(status: Status, c: Counters, errors: nat): Report {
    Report(status, c.fetched, c.created, c.updated, c.skipped, errors, c.cursorAfter)
  }

  function RunSync(mirror: Mirror, cursor: string, world: World): Result {
    var deals := if world.fetched.Some? then world.fetched.value else [];
    var (m, c) := PersistAll(mirror, deals, world.fails, world.Reached());
    if world.Interrupted() then
      Result(m, cursor, ReportOf(Failed, c, c.errors), ReportOf(Failed, c, c.errors + 1))
    else
      var status := if c.errors == 0 then Completed else Partial;
      var report := ReportOf(status, c, c.errors);
      Result(m, if c.cursorAfter != "" then c.cursorAfter else cursor, report, report)
  }

  // ---------------------------------------------------------------- the run itself

  class SyncContext {
    var c: Counters
    constructor ()
      ensures c == ZERO
    {
      c := ZERO;
    }
  }

  class DealSync {
    var mirror: Mirror
    var cursor: string
    var savedRun: Option<Report>

    constructor ()
      ensures mirror == map[] && cursor == "" && savedRun == None
    {
      mirror, cursor, savedRun := map[], "", None;
    }

    method Persist(ctx: SyncContext, deal: Deal, fails: bool)
      modifies this`mirror, ctx
      ensures (mirror, ctx.c) == PersistOne(old(mirror), old(ctx.c), deal, fails)
    {
      ctx.c := ctx.c.(fetched := ctx.c.fetched + 1);
      if fails {
        ctx.c := ctx.c.(errors := ctx.c.errors + 1);
        return;
      }
      var created := deal.id !in mirror;
      mirror := mirror[deal.id := ToRow(deal)];
      ctx.c := ctx.c.(cursorAfter := Max(ctx.c.cursorAfter, deal.update));
      if created {
        ctx.c := ctx.c.(created := ctx.c.created + 1);
      } else {
        ctx.c := ctx.c.(updated := ctx.c.updated + 1);
      }
    }

    method Finalize(ctx: SyncContext, status: Status)
      modifies this`savedRun
      ensures savedRun == Some(ReportOf(status, ctx.c, ctx.c.errors))
    {
      savedRun := Some(ReportOf(status, ctx.c, ctx.c.errors));
    }

    method Run(world: World) returns (outcome: Report)
      modifies this
      ensures savedRun.Some?
      ensures Result(mirror, cursor, savedRun.value, outcome) == RunSync(old(mirror), old(cursor), world)
    {
      var ctx := new SyncContext();
      var failed := world.fetched.None?;
      if !failed {
        var deals := world.fetched.value;
        var k := 0;
        while k < |deals| && !failed
          invariant k <= |deals| && fresh(ctx) && cursor == old(cursor)
          invariant (mirror, ctx.c) == PersistAll(old(mirror), deals, world.fails, k)
          invariant world.limited.Some? ==> k <= world.limited.value || |deals| <= world.limited.value
          invariant failed ==> world.limited == Some(k) && k < |deals|
          decreases |deals| - k, !failed
        {
          if world.limited == Some(k) {
            failed := true;
          } else {
            Persist(ctx, deals[k], world.fails(k));
            k := k + 1;
          }
        }
      }
      if failed {
        Finalize(ctx, Failed);
        return ReportOf(Failed, ctx.c, ctx.c.errors + 1);
      }
      var status := if ctx.c.errors == 0 then Completed else Partial;
      Finalize(ctx, status);
      if ctx.c.cursorAfter != "" {
        cursor := ctx.c.cursorAfter;
      }
      outcome := ReportOf(status, ctx.c, ctx.c.errors);
    }
  }

  // ---------------------------------------------------------------- accounting

  lemma OneCounts(mirror: Mirror, c: Counters, deal: Deal, fails: bool)
    ensures var c' := PersistOne(mirror, c, deal, fails).1;
            && c'.fetched == c.fetched + 1 && c'.errors == c.errors + (if fails then 1 else 0)
            && c'.created + c'.updated + c'.skipped + c'.errors == c.created + c.updated + c.skipped + c.errors + 1
  {
  }

  lemma {:induction false} CountersAddUp(mirror: Mirror, deals: seq<Deal>, fails: nat -> bool, n: nat)
    requires n <= |deals|
    ensures var c := PersistAll(mirror, deals, fails, n).1;
            && c.fetched == c.created + c.updated + c.skipped + c.errors == n
            && (c.errors == 0 <==> forall k :: 0 <= k < n ==> !fails(k))
  {
    if n > 0 {
      CountersAddUp(mirror, deals, fails, n - 1);
      var (m, c) := PersistAll(mirror, deals, fails, n - 1);
      OneCounts(m, c, deals[n - 1], fails(n - 1));
    }
  }

  /** The saved row of every run adds up, whatever its status; the reported outcome of a failed run
      counts one error more than its saved row, any other outcome equals the saved row. */
  lemma RunAddsUp(mirror: Mirror, cursor: string, world: World)
    ensures var r := RunSync(mirror, cursor, world);
            && r.saved.fetched == r.saved.created + r.saved.updated + r.saved.skipped + r.saved.errors
            && (if r.saved.status == Failed then r.outcome == r.saved.(errors := r.saved.errors + 1)
              else r.outcome == r.saved)
            && (r.saved.status == Failed ==> r.cursor == cursor)
  {
    CountersAddUp(mirror, if world.fetched.Some? then world.fetched.value else [], world.fails, world.Reached());
  }

  /** The rows among the first n that raise. */
  ghost function Failing(fails: nat -> bool, n: nat): set<nat> { set k: nat | k < n && fails(k) }

  /** Row k is the last of the first n that does not raise and carries this id. */
  predicate Writes(deals: seq<Deal>, fails: nat -> bool, n: nat, k: nat, id: int)
    requires n <= |deals|
  {
    k < n && !fails(k) && deals[k].id == id && forall j :: k < j < n && !fails(j) ==> deals[j].id != id
  }

  /** A mirror row carries the whole deal and the first 512 characters of its title. */
  predicate Carries(row: Row, deal: Deal) {
    row.raw == deal && row.title <= deal.title && |row.title| == if |deal.title| <= 512 then |deal.title| else 512
  }

  /** Persisting rows: those that raise are counted as errors, the mirror grows by as many ids as are
      counted created, all other rows are updates. */
  lemma {:induction false} CountsAre(mirror: Mirror, deals: seq<Deal>, fails: nat -> bool, n: nat)
    requires n <= |deals|
    ensures var (m, c) := PersistAll(mirror, deals, fails, n);
            && |m| == |mirror| + c.created && c.errors == |Failing(fails, n)| && c.skipped == 0
            && c.created + c.updated + c.errors == n
  {
    if n > 0 {
      CountsAre(mirror, deals, fails, n - 1);
      var (m, c) := PersistAll(mirror, deals, fails, n - 1);
      FailingNext(fails, n - 1);
      OneGrows(m, c, deals[n - 1], fails(n - 1));
    } else {
      assert Failing(fails, 0) == {};
    }
  }

  lemma FailingNext(fails: nat -> bool, n: nat)
    ensures |Failing(fails, n + 1)| == |Failing(fails, n)| + (if fails(n) then 1 else 0)
  {
    assert Failing(fails, n + 1) == if fails(n) then Failing(fails, n) + {n} else Failing(fails, n);
  }

  lemma OneGrows(mirror: Mirror, c: Counters, deal: Deal, fails: bool)
    ensures var (m, c') := PersistOne(mirror, c, deal, fails);
            && |m| - |mirror| == c'.created - c.created && c'.skipped == c.skipped
            && c'.errors == c.errors + (if fails then 1 else 0)
            && c'.created + c'.updated + c'.errors == c.created + c.updated + c.errors + 1
  {
    if !fails && deal.id in mirror {
      assert mirror[deal.id := ToRow(deal)].Keys == mirror.Keys;
    }
    MapSize(mirror, mirror.Keys);
    MapSize(PersistOne(mirror, c, deal, fails).0, mirror.Keys + (if fails then {} else {deal.id}));
  }

  lemma MapSize(mirror: Mirror, keys: set<int>)
    requires mirror.Keys == keys
    ensures |mirror| == |keys|
  {
  }

  /** The mirror after n rows: an id holds the last row persisted for it. */
  lemma {:induction false} LastWrite(mirror: Mirror, deals: seq<Deal>, fails: nat -> bool, n: nat, k: nat, id: int)
    requires n <= |deals| && Writes(deals, fails, n, k, id)
    ensures var m := PersistAll(mirror, deals, fails, n).0; id in m && Carries(m[id], deals[k])
  {
    if k < n - 1 {
      assert fails(n - 1) || deals[n - 1].id != id;
      LastWrite(mirror, deals, fails, n - 1, k, id);
    }
  }

  /** An id for which no row was persisted holds what it held before. */
  lemma {:induction false} NoWrite(mirror: Mirror, deals: seq<Deal>, fails: nat -> bool, n: nat, id: int)
    requires n <= |deals| && forall k :: 0 <= k < n && !fails(k) ==> deals[k].id != id
    ensures var m := PersistAll(mirror, deals, fails, n).0;
            (id in m <==> id in mirror) && (id in m ==> m[id] == mirror[id])
  {
    if n > 0 { NoWrite(mirror, deals, fails, n - 1, id); }
  }

  /** A run in plain terms, whatever it meets.  Its saved row counts the rows reached, the ids new to
      the mirror and the rows that raised; what was persisted before an interruption stays; the
      status is failed when the run is interrupted, completed when no row raised, partial otherwise;
      the cursor moves to the greatest persisted stamp, unless there is none or the run failed. */
  lemma RunIs(mirror: Mirror, cursor: string, world: World)
    ensures var r, n := RunSync(mirror, cursor, world), world.Reached();
            var deals := if world.fetched.Some? then world.fetched.value else [];
            && n <= |deals| && (!world.Interrupted() ==> n == |deals|)
            && r.saved.fetched == n == r.saved.created + r.saved.updated + r.saved.errors && r.saved.skipped == 0
            && |r.mirror| == |mirror| + r.saved.created && r.saved.errors == |Failing(world.fails, n)|
            && (r.saved.status == Failed <==> world.Interrupted())
            && (r.saved.status == Completed <==> !world.Interrupted() && Failing(world.fails, n) == {})
            && (forall k :: 0 <= k < n && !world.fails(k) ==> Le(deals[k].update, r.saved.cursorAfter))
            && (r.saved.cursorAfter == ""
               || exists k :: 0 <= k < n && !world.fails(k) && deals[k].update == r.saved.cursorAfter)
            && r.cursor == if r.saved.status == Failed || r.saved.cursorAfter == "" then cursor else r.saved.cursorAfter
  {
    var deals := if world.fetched.Some? then world.fetched.value else [];
    CountersAddUp(mirror, deals, world.fails, world.Reached());
    CountsAre(mirror, deals, world.fails, world.Reached());
    CursorIsMax(mirror, deals, world.fails, world.Reached());
  }

  /** What a run leaves in the mirror, also when it is interrupted. */
  lemma RunMirrorIs(mirror: Mirror, cursor: string, world: World, id: int)
    requires world.fetched.Some?
    ensures var m, deals, n := RunSync(mirror, cursor, world).mirror, world.fetched.value, world.Reached();
            && (forall k: nat :: k < n && Writes(deals, world.fails, n, k, id) ==> id in m && Carries(m[id], deals[k]))
            && ((forall k :: 0 <= k < n && !world.fails(k) ==> deals[k].id != id) ==>
                  (id in m <==> id in mirror) && (id in m ==> m[id] == mirror[id]))
  {
    var deals, n := world.fetched.value, world.Reached();
    forall k: nat | k < n && Writes(deals, world.fails, n, k, id)
      ensures var m := RunSync(mirror, cursor, world).mirror; id in m && Carries(m[id], deals[k])
    {
      LastWrite(mirror, deals, world.fails, n, k, id);
    }
    if forall k :: 0 <= k < n && !world.fails(k) ==> deals[k].id != id { NoWrite(mirror, deals, world.fails, n, id); }
  }

  // ---------------------------------------------------------------- nothing is lost

  type Source = map<int, Deal>

  predicate Agrees(mirror: Mirror, deal: Deal) { deal.id in mirror && mirror[deal.id] == ToRow(deal) }

  ghost predicate KeysOwn(source: Source) { forall id :: id in source ==> source[id].id == id }

  /** Every listed deal is mirrored, or the cursor has not passed its last edit. */
  ghost predicate NoLoss(source: Source, mirror: Mirror, cursor: string) {
    forall id :: id in source ==> Agrees(mirror, source[id]) || Le(cursor, source[id].update)
  }

  /** An atomic listing: each source deal exactly once. */
  ghost predicate Lists(listed: seq<Deal>, source: Source) {
    && (forall k :: 0 <= k < |listed| ==> listed[k].id in source && source[listed[k].id] == listed[k])
    && (forall id :: id in source ==> source[id] in listed)
    && (forall j, k :: 0 <= j < k < |listed| ==> listed[j].id != listed[k].id)
  }

  lemma {:induction false} FilterContents(listed: seq<Deal>, since: string)
    ensures forall d :: d in Filter(listed, since) <==> d in listed && Recent(since, d)
    ensures (forall j, k :: 0 <= j < k < |listed| ==> listed[j].id != listed[k].id) ==>
            forall j, k :: 0 <= j < k < |Filter(listed, since)| ==>
              Filter(listed, since)[j].id != Filter(listed, since)[k].id
  {
    if listed != [] {
      FilterContents(listed[1..], since);
      var rest := Filter(listed[1..], since);
      assert forall k :: 0 <= k < |rest| ==> rest[k] in listed[1..];
    }
  }

  ghost predicate DistinctIds(deals: seq<Deal>) {
    forall j, k :: 0 <= j < k < |deals| ==> deals[j].id != deals[k].id
  }

  /** After n rows: persisted deals agree, failed ones and untouched ids keep their row. */
  lemma {:induction false} PersistedAgree(mirror: Mirror, deals: seq<Deal>, fails: nat -> bool, n: nat)
    requires n <= |deals| && DistinctIds(deals)
    ensures var m := PersistAll(mirror, deals, fails, n).0;
            && (forall k :: 0 <= k < n && !fails(k) ==> Agrees(m, deals[k]))
            && forall id :: (forall k :: 0 <= k < n && !fails(k) ==> deals[k].id != id) ==>
                 (id in m <==> id in mirror) && (id in m ==> m[id] == mirror[id])
  {
    if n > 0 {
      PersistedAgree(mirror, deals, fails, n - 1);
      var before, m := PersistAll(mirror, deals, fails, n - 1).0, PersistAll(mirror, deals, fails, n).0;
      assert m == if fails(n - 1) then before else before[deals[n - 1].id := ToRow(deals[n - 1])];
      forall k | 0 <= k < n - 1 && !fails(k)
        ensures Agrees(m, deals[k])
      {
        assert Agrees(before, deals[k]) && deals[k].id != deals[n - 1].id;
      }
    }
  }

  /** The new cursor is the greatest stamp persisted, and that of a row that did not fail. */
  lemma {:induction false} CursorIsMax(mirror: Mirror, deals: seq<Deal>, fails: nat -> bool, n: nat)
    requires n <= |deals|
    ensures var c := PersistAll(mirror, deals, fails, n).1;
            && (forall k :: 0 <= k < n && !fails(k) ==> Le(deals[k].update, c.cursorAfter))
            && (c.cursorAfter == "" || exists k :: 0 <= k < n && !fails(k) && deals[k].update == c.cursorAfter)
  {
    if n > 0 {
      CursorIsMax(mirror, deals, fails, n - 1);
      var before := PersistAll(mirror, deals, fails, n - 1).1.cursorAfter;
      var after := PersistAll(mirror, deals, fails, n).1.cursorAfter;
      if !fails(n - 1) {
        MaxBounds(before, deals[n - 1].update);
        forall k | 0 <= k < n - 1 && !fails(k)
          ensures Le(deals[k].update, after)
        {
          Transitive(deals[k].update, before, after);
        }
      }
    }
  }

  // ---------------------------------------------------------------- runs interleaved with source edits

  datatype Sys = Sys(source: Source, clock: string, mirror: Mirror, cursor: string)

  /** Edits stamp a deal no earlier than any edit before; a sync fetches atomically or not at all. */
  datatype Step = Edit(deal: Deal) | Delete(id: int) | Sync(listed: seq<Deal>, world: World)

  ghost predicate Honest(s: Sys, step: Step) {
    match step
    case Edit(deal) => Le(s.clock, deal.update)
    case Delete(id) => true
    case Sync(listed, world) =>
      Lists(listed, s.source) && (world.fetched.Some? ==> world.fetched.value == Filter(listed, s.cursor))
  }

  function Next(s: Sys, step: Step): Sys {
    match step
    case Edit(deal) => s.(source := s.source[deal.id := deal], clock := deal.update)
    case Delete(id) => s.(source := s.source - {id})
    case Sync(listed, world) => var r := RunSync(s.mirror, s.cursor, world); s.(mirror := r.mirror, cursor := r.cursor)
  }

  ghost predicate Inv(s: Sys) {
    && KeysOwn(s.source) && NoLoss(s.source, s.mirror, s.cursor) && Le(s.cursor, s.clock)
    && forall id :: id in s.source ==> Le(s.source[id].update, s.clock)
  }

  lemma EditKeeps(s: Sys, deal: Deal)
    requires Inv(s) && Le(s.clock, deal.update)
    ensures Inv(Next(s, Edit(deal)))
  {
    Transitive(s.cursor, s.clock, deal.update);
    Reflexive(deal.update);
    forall id | id in s.source
      ensures Le(s.source[id].update, deal.update)
    {
      Transitive(s.source[id].update, s.clock, deal.update);
    }
  }

  /** What a run's fetched deals are: source deals, each once, all those at or after the cursor. */
  lemma FetchedDeals(s: Sys, listed: seq<Deal>, deals: seq<Deal>)
    requires Lists(listed, s.source) && KeysOwn(s.source) && deals == Filter(listed, s.cursor)
    ensures DistinctIds(deals)
    ensures forall k :: 0 <= k < |deals| ==>
              deals[k].id in s.source && s.source[deals[k].id] == deals[k] && Recent(s.cursor, deals[k])
    ensures forall id :: id in s.source && Recent(s.cursor, s.source[id]) ==> s.source[id] in deals
  {
    FilterContents(listed, s.cursor);
    forall k | 0 <= k < |deals|
      ensures deals[k] in listed && Recent(s.cursor, deals[k])
    {
      assert deals[k] in deals;
    }
  }

  /** Persisting part of the fetched deals never spoils a row: whatever agreed with the source still does. */
  lemma StillAgrees(s: Sys, deals: seq<Deal>, fails: nat -> bool, n: nat, id: int)
    requires n <= |deals| && DistinctIds(deals) && KeysOwn(s.source) && id in s.source && Agrees(s.mirror, s.source[id])
    requires forall k :: 0 <= k < |deals| ==> deals[k].id in s.source && s.source[deals[k].id] == deals[k]
    ensures Agrees(PersistAll(s.mirror, deals, fails, n).0, s.source[id])
  {
    PersistedAgree(s.mirror, deals, fails, n);
    if k :| 0 <= k < n && !fails(k) && deals[k].id == id {
      assert deals[k] == s.source[id];
    }
  }

  /** The cursor a run saves is no earlier than before and no later than the newest edit. */
  lemma CursorAdvances(s: Sys, listed: seq<Deal>, world: World)
    requires Inv(s) && Honest(s, Sync(listed, world))
    ensures var cursor := RunSync(s.mirror, s.cursor, world).cursor; Le(s.cursor, cursor) && Le(cursor, s.clock)
  {
    Reflexive(s.cursor);
    if !world.Interrupted() {
      var deals := world.fetched.value;
      FetchedDeals(s, listed, deals);
      CursorIsMax(s.mirror, deals, world.fails, |deals|);
    }
  }

  lemma FailedKeeps(s: Sys, listed: seq<Deal>, world: World)
    requires Inv(s) && Honest(s, Sync(listed, world)) && world.Interrupted()
    ensures Inv(Next(s, Sync(listed, world)))
  {
    var deals := if world.fetched.Some? then world.fetched.value else [];
    if world.fetched.Some? { FetchedDeals(s, listed, deals); }
    forall id | id in s.source && Agrees(s.mirror, s.source[id])
      ensures Agrees(PersistAll(s.mirror, deals, world.fails, world.Reached()).0, s.source[id])
    {
      StillAgrees(s, deals, world.fails, world.Reached(), id);
    }
  }

  /** After a run that was not interrupted, only failed rows can disagree with the source. */
  lemma OnlyFailedDisagree(s: Sys, listed: seq<Deal>, world: World, id: int)
    requires Inv(s) && Honest(s, Sync(listed, world)) && !world.Interrupted() && id in s.source
    ensures var deals := world.fetched.value;
            || Agrees(RunSync(s.mirror, s.cursor, world).mirror, s.source[id])
            || exists k :: 0 <= k < |deals| && world.fails(k) && deals[k] == s.source[id]
  {
    var deals := world.fetched.value;
    FetchedDeals(s, listed, deals);
    PersistedAgree(s.mirror, deals, world.fails, |deals|);
    if Recent(s.cursor, s.source[id]) {
      var k :| 0 <= k < |deals| && deals[k] == s.source[id];
    } else {
      StillAgrees(s, deals, world.fails, |deals|, id);
    }
  }

  lemma CompletedAgrees(s: Sys, listed: seq<Deal>, world: World)
    requires Inv(s) && Honest(s, Sync(listed, world))
    requires RunSync(s.mirror, s.cursor, world).saved.status == Completed
    ensures var s' := Next(s, Sync(listed, world));
            Inv(s') && forall id :: id in s.source ==> Agrees(s'.mirror, s.source[id])
  {
    CountersAddUp(s.mirror, world.fetched.value, world.fails, |world.fetched.value|);
    CursorAdvances(s, listed, world);
    forall id | id in s.source
      ensures Agrees(Next(s, Sync(listed, world)).mirror, s.source[id])
    {
      OnlyFailedDisagree(s, listed, world, id);
    }
  }

  /** No row that fails, and is not in the mirror as it stands, is older than a row that does not fail. */
  predicate FailuresAreLatest(mirror: Mirror, deals: seq<Deal>, fails: nat -> bool) {
    forall j, k :: 0 <= j < |deals| && 0 <= k < |deals| && fails(k) && !fails(j) && !Agrees(mirror, deals[k]) ==>
      Le(deals[j].update, deals[k].update)
  }

  /** A failed row agrees after the run exactly when it did before. */
  lemma FailedUnchanged(mirror: Mirror, deals: seq<Deal>, fails: nat -> bool, k: nat)
    requires k < |deals| && DistinctIds(deals) && fails(k)
    ensures Agrees(PersistAll(mirror, deals, fails, |deals|).0, deals[k]) <==> Agrees(mirror, deals[k])
  {
    PersistedAgree(mirror, deals, fails, |deals|);
    assert forall j :: 0 <= j < |deals| && !fails(j) ==> deals[j].id != deals[k].id;
  }

  /** When the failures are the latest rows, a failed row that disagrees is no older than the saved cursor. */
  lemma CursorBelowFailure(s: Sys, listed: seq<Deal>, world: World, k: nat)
    requires Inv(s) && Honest(s, Sync(listed, world)) && !world.Interrupted() && k < |world.fetched.value|
    requires FailuresAreLatest(s.mirror, world.fetched.value, world.fails)
    requires world.fails(k) && !Agrees(s.mirror, world.fetched.value[k])
    ensures Le(RunSync(s.mirror, s.cursor, world).cursor, world.fetched.value[k].update)
  {
    FetchedDeals(s, listed, world.fetched.value);
    CursorIsMax(s.mirror, world.fetched.value, world.fails, |world.fetched.value|);
  }

  lemma LatestLosesNothing(s: Sys, listed: seq<Deal>, world: World)
    requires Inv(s) && Honest(s, Sync(listed, world)) && !world.Interrupted()
    requires FailuresAreLatest(s.mirror, world.fetched.value, world.fails)
    ensures var r := RunSync(s.mirror, s.cursor, world); NoLoss(s.source, r.mirror, r.cursor)
  {
    var r, deals := RunSync(s.mirror, s.cursor, world), world.fetched.value;
    FetchedDeals(s, listed, deals);
    forall id | id in s.source && !Agrees(r.mirror, s.source[id])
      ensures Le(r.cursor, s.source[id].update)
    {
      OnlyFailedDisagree(s, listed, world, id);
      var k :| 0 <= k < |deals| && world.fails(k) && deals[k] == s.source[id];
      FailedUnchanged(s.mirror, deals, world.fails, k);
      CursorBelowFailure(s, listed, world, k);
    }
  }

  lemma LossIsEarlierFailure(s: Sys, listed: seq<Deal>, world: World)
    requires Inv(s) && Honest(s, Sync(listed, world)) && !world.Interrupted()
    requires var r := RunSync(s.mirror, s.cursor, world); NoLoss(s.source, r.mirror, r.cursor)
    ensures FailuresAreLatest(s.mirror, world.fetched.value, world.fails)
  {
    var r, deals := RunSync(s.mirror, s.cursor, world), world.fetched.value;
    FetchedDeals(s, listed, deals);
    CursorIsMax(s.mirror, deals, world.fails, |deals|);
    var stamp := PersistAll(s.mirror, deals, world.fails, |deals|).1.cursorAfter;
    forall j, k | 0 <= j < |deals| && 0 <= k < |deals| && world.fails(k) && !world.fails(j)
      && !Agrees(s.mirror, deals[k])
      ensures Le(deals[j].update, deals[k].update)
    {
      FailedUnchanged(s.mirror, deals, world.fails, k);
      assert !Agrees(r.mirror, s.source[deals[k].id]);
      assert Le(stamp, deals[k].update);
      Transitive(deals[j].update, stamp, deals[k].update);
    }
  }

  /** A run that is not interrupted loses nothing if and only if no row that fails, and that the
      mirror does not hold as it stands, is older than a row that does not fail. */
  lemma PartialLosesIff(s: Sys, listed: seq<Deal>, world: World)
    requires Inv(s) && Honest(s, Sync(listed, world)) && !world.Interrupted()
    ensures var r := RunSync(s.mirror, s.cursor, world);
            NoLoss(s.source, r.mirror, r.cursor) <==> FailuresAreLatest(s.mirror, world.fetched.value, world.fails)
  {
    var r := RunSync(s.mirror, s.cursor, world);
    if FailuresAreLatest(s.mirror, world.fetched.value, world.fails) { LatestLosesNothing(s, listed, world); }
    if NoLoss(s.source, r.mirror, r.cursor) { LossIsEarlierFailure(s, listed, world); }
  }

  function After(s: Sys, steps: seq<Step>): Sys
    decreases steps
  {
    if steps == [] then s else After(Next(s, steps[0]), steps[1..])
  }

  /** Every step is honest, and in a sync that is not interrupted failures come last. */
  ghost predicate Safe(s: Sys, steps: seq<Step>)
    decreases steps
  {
    steps == [] || (Honest(s, steps[0]) && SafeSync(s, steps[0]) && Safe(Next(s, steps[0]), steps[1..]))
  }

  predicate SafeSync(s: Sys, step: Step) {
    step.Sync? && !step.world.Interrupted() ==> FailuresAreLatest(s.mirror, step.world.fetched.value, step.world.fails)
  }

  /** A completed run is safe, whatever it fetches. */
  lemma CompletedIsSafe(s: Sys, step: Step)
    requires step.Sync? && RunSync(s.mirror, s.cursor, step.world).saved.status == Completed
    ensures SafeSync(s, step)
  {
    CountersAddUp(s.mirror, step.world.fetched.value, step.world.fails, |step.world.fetched.value|);
  }

  lemma SafeSyncKeeps(s: Sys, listed: seq<Deal>, world: World)
    requires Inv(s) && Honest(s, Sync(listed, world)) && SafeSync(s, Sync(listed, world))
    ensures Inv(Next(s, Sync(listed, world)))
  {
    if world.Interrupted() {
      FailedKeeps(s, listed, world);
    } else {
      CursorAdvances(s, listed, world);
      PartialLosesIff(s, listed, world);
    }
  }

  lemma {:induction false} RunsKeep(s: Sys, steps: seq<Step>)
    requires Inv(s) && Safe(s, steps)
    ensures Inv(After(s, steps)) && Le(s.cursor, After(s, steps).cursor)
    decreases steps
  {
    Reflexive(s.cursor);
    if steps != [] {
      var s' := Next(s, steps[0]);
      match steps[0] {
        case Edit(deal) => EditKeeps(s, deal);
        case Delete(id) =>
        case Sync(listed, world) =>
          CursorAdvances(s, listed, world);
          SafeSyncKeeps(s, listed, world);
      }
      RunsKeep(s', steps[1..]);
      Transitive(s.cursor, s'.cursor, After(s, steps).cursor);
    }
  }

  const FRESH := Sys(map[], "", map[], "")

  /** Over any interleaving of source edits and syncs that end completed, failed, or partial with the
      latest rows failing, every completed sync leaves the mirror agreeing with the source on every
      listed deal, and the saved cursor never goes back. */
  lemma MirrorLosesNothing(steps: seq<Step>, listed: seq<Deal>, world: World)
    requires Safe(FRESH, steps) && Honest(After(FRESH, steps), Sync(listed, world))
    requires var s := After(FRESH, steps); RunSync(s.mirror, s.cursor, world).saved.status == Completed
    ensures var s := After(FRESH, steps);
            var s' := Next(s, Sync(listed, world));
            Le(s.cursor, s'.cursor) && forall id :: id in s.source ==> Agrees(s'.mirror, s.source[id])
  {
    RunsKeep(FRESH, steps);
    CompletedAgrees(After(FRESH, steps), listed, world);
    CursorAdvances(After(FRESH, steps), listed, world);
  }

  // ---------------------------------------------------------------- a partial run that loses a row

  const EARLY := Deal(1, "1", "early", "")
  const LATE := Deal(2, "2", "late", "")

  const TWO_DEALS := Sys(map[1 := EARLY, 2 := LATE], "2", map[], "")
  const FIRST_FAILS := World(Some([EARLY, LATE]), None, (k: nat) => k == 0)

  lemma FirstFailsRun()
    ensures PersistAll(map[], [EARLY, LATE], FIRST_FAILS.fails, 2)
            == (map[2 := ToRow(LATE)], Counters(2, 1, 0, 0, 1, "2"))
  {
    var deals, fails := [EARLY, LATE], FIRST_FAILS.fails;
    assert fails(0) && !fails(1);
    assert PersistAll(map[], deals, fails, 0) == (map[], ZERO);
    assert PersistAll(map[], deals, fails, 1) == PersistOne(map[], ZERO, EARLY, true);
    assert Max("", "2") == "2";
  }

  lemma LateIsRecent()
    ensures Filter([EARLY, LATE], "") == [EARLY, LATE] && Filter([EARLY, LATE], "2") == [LATE]
  {
    var deals := [EARLY, LATE];
    assert Le("2", "2") && !Le("2", "1");
    assert deals[1..] == [LATE] && [LATE][1..] == [];
    assert Filter([LATE], "") == [LATE] && Filter([LATE], "2") == [LATE];
  }

  /** Two new deals, of which the earlier one fails once: the cursor passes it, and the next sync,
      with nothing failing, no longer fetches it. */
  lemma PartialLosesRow()
    ensures var s' := Next(TWO_DEALS, Sync([EARLY, LATE], FIRST_FAILS));
            && Inv(TWO_DEALS) && Honest(TWO_DEALS, Sync([EARLY, LATE], FIRST_FAILS))
            && s'.cursor == "2" && !Agrees(s'.mirror, EARLY) && Filter([EARLY, LATE], s'.cursor) == [LATE]
  {
    FirstFailsRun();
    LateIsRecent();
    assert Le("1", "2") && Le("2", "2");
    assert [EARLY, LATE][0] == EARLY && [EARLY, LATE][1] == LATE;
  }
}
