/**
 The event sink (`ClickHouseSink`): deduplicate by event id, turn events into rows, buffer them
 and insert whole buffers; a failing insert leaves the buffer as it is.
 */
module ClickHouseSink {
  import opened Options

  const BATCH_SIZE := 100

  /** An event; `readable` says that its timestamp and columns pass the row schema. */
  datatype Event = Event(eventId: Option<string>, eventType: string, tenantId: Option<string>, runId: Option<string>,
                         readable: bool, payload: string)

  datatype Row =
    | AgentRow(tenant: string, run: string, status: string, payload: string)
    | SystemRow(tenant: string, id: string, eventType: string, payload: string)

  predicate IsRun(e: Event) { "run." <= e.eventType }

  function RunStatus(eventType: string): string {
    match eventType
    case "run.completed" => "completed"
    case "run.failed" => "failed"
    case _ => "started"
  }

  /** The row an event becomes, unless building it raises. */
  function RowOf(e: Event): Option<Row> {
    if IsRun(e) then
      if e.tenantId.Some? && e.runId.Some? && e.readable
      then Some(AgentRow(e.tenantId.value, e.runId.value, RunStatus(e.eventType), e.payload)) else None
    else
      if e.tenantId.Some? && e.eventId.Some? && e.readable
      then Some(SystemRow(e.tenantId.value, e.eventId.value, e.eventType, e.payload)) else None
  }

  function IdOf(e: Event): string { if e.eventId.Some? then e.eventId.value else "" }

  // ---------------------------------------------------------------- specification

  /** One buffer with the table behind it. */
  datatype Lane = Lane(table: seq<Row>, buffer: seq<Row>)

  datatype State = State(seen: set<string>, agent: Lane, system: Lane, attempts: nat)

  /** Inserts a buffer row by row; fails(n) tells whether the n-th insert of the sink's life raises. */
  function InsertAll(table: seq<Row>, rows: seq<Row>, attempts: nat, fails: nat -> bool): (seq<Row>, nat, bool)
    decreases rows
  {
    if rows == [] then (table, attempts, true)
    else if fails(attempts) then (table, attempts + 1, false)
    else InsertAll(table + [rows[0]], rows[1..], attempts + 1, fails)
  }

  function FlushLane(lane: Lane, attempts: nat, fails: nat -> bool): (Lane, nat, bool) {
    var (table, attempts', ok) := InsertAll(lane.table, lane.buffer, attempts, fails);
    (Lane(table, if ok then [] else lane.buffer), attempts', ok)
  }

  function Accept(lane: Lane, row: Row, attempts: nat, fails: nat -> bool): (Lane, nat) {
    var lane1 := lane.(buffer := lane.buffer + [row]);
    if |lane1.buffer| >= BATCH_SIZE then
      var (lane2, attempts', _) := FlushLane(lane1, attempts, fails);
      (lane2, attempts')
    else (lane1, attempts)
  }

  /** `handle`, which swallows every exception after the id is noted. */
  function Handle(st: State, e: Event, fails: nat -> bool): State {
    var id := IdOf(e);
    if id != "" && id in st.seen then st
    else
      var seen := if id != "" then st.seen + {id} else st.seen;
      match RowOf(e)
      case None => st.(seen := seen)
      case Some(row) =>
        if IsRun(e) then
          var (lane, attempts) := Accept(st.agent, row, st.attempts, fails);
          State(seen, lane, st.system, attempts)
        else
          var (lane, attempts) := Accept(st.system, row, st.attempts, fails);
          State(seen, st.agent, lane, attempts)
  }

  /** `flush`; the agent rows' failure keeps the system rows waiting. */
  function Flush(st: State, fails: nat -> bool): (State, bool) {
    var (agent, attempts, ok) := FlushLane(st.agent, st.attempts, fails);
    if !ok then (State(st.seen, agent, st.system, attempts), false)
    else
      var (system, attempts', ok') := FlushLane(st.system, attempts, fails);
      (State(st.seen, agent, system, attempts'), ok')
  }

  // ---------------------------------------------------------------- the sink

  class Sink {
    var seen: set<string>
    var agentBuffer: seq<Row>
    var systemBuffer: seq<Row>
    var agentTable: seq<Row>
    var systemTable: seq<Row>
    var attempts: nat
    const fails: nat -> bool

    function St(): State
      reads this
    {
      State(seen, Lane(agentTable, agentBuffer), Lane(systemTable, systemBuffer), attempts)
    }

    constructor (fails: nat -> bool)
      ensures this.fails == fails && St() == State({}, Lane([], []), Lane([], []), 0)
    {
      this.fails := fails;
      seen, agentBuffer, systemBuffer, agentTable, systemTable, attempts := {}, [], [], [], [], 0;
    }

    method FlushAgent() returns (ok: bool)
      modifies this
      ensures (Lane(agentTable, agentBuffer), attempts, ok) == FlushLane(old(St()).agent, old(attempts), fails)
      ensures St() == old(St()).(agent := St().agent, attempts := attempts)
    {
      for k := 0 to |agentBuffer|
        invariant St() == old(St()).(agent := Lane(agentTable, agentBuffer), attempts := attempts)
                  && agentBuffer == old(agentBuffer)
        invariant InsertAll(agentTable, agentBuffer[k..], attempts, fails)
                  == InsertAll(old(agentTable), agentBuffer, old(attempts), fails)
      {
        var row := agentBuffer[k];
        attempts := attempts + 1;
        if fails(attempts - 1) {
          return false;
        }
        agentTable := agentTable + [row];
        assert agentBuffer[k..][1..] == agentBuffer[k + 1..];
      }
      agentBuffer := [];
      ok := true;
    }

    method FlushSystem() returns (ok: bool)
      modifies this
      ensures (Lane(systemTable, systemBuffer), attempts, ok) == FlushLane(old(St()).system, old(attempts), fails)
      ensures St() == old(St()).(system := St().system, attempts := attempts)
    {
      for k := 0 to |systemBuffer|
        invariant St() == old(St()).(system := Lane(systemTable, systemBuffer), attempts := attempts)
                  && systemBuffer == old(systemBuffer)
        invariant InsertAll(systemTable, systemBuffer[k..], attempts, fails)
                  == InsertAll(old(systemTable), systemBuffer, old(attempts), fails)
      {
        var row := systemBuffer[k];
        attempts := attempts + 1;
        if fails(attempts - 1) {
          return false;
        }
        systemTable := systemTable + [row];
        assert systemBuffer[k..][1..] == systemBuffer[k + 1..];
      }
      systemBuffer := [];
      ok := true;
    }

    method HandleEvent(e: Event)
      modifies this
      ensures St() == Handle(old(St()), e, fails)
    {
      var id := IdOf(e);
      if id != "" && id in seen {
        return;
      }
      if id != "" {
        seen := seen + {id};
      }
      var row := RowOf(e);
      if row.None? {
        return;
      }
      if IsRun(e) {
        agentBuffer := agentBuffer + [row.value];
        if |agentBuffer| >= BATCH_SIZE {
          var _ := FlushAgent();
        }
      } else {
        systemBuffer := systemBuffer + [row.value];
        if |systemBuffer| >= BATCH_SIZE {
          var _ := FlushSystem();
        }
      }
    }

    method FlushBoth() returns (ok: bool)
      modifies this
      ensures (St(), ok) == Flush(old(St()), fails)
    {
      ok := FlushAgent();
      if ok {
        ok := FlushSystem();
      }
    }
  }

  // ---------------------------------------------------------------- what was accepted

  datatype Step = Arrives(event: Event) | FlushNow

  function Next(st: State, step: Step, fails: nat -> bool): State {
    match step
    case Arrives(event) => Handle(st, event, fails)
    case FlushNow => Flush(st, fails).0
  }

  const FRESH := State({}, Lane([], []), Lane([], []), 0)

  function After(steps: seq<Step>, fails: nat -> bool): State {
    if steps == [] then FRESH else Next(After(steps[..|steps| - 1], fails), steps[|steps| - 1], fails)
  }

  predicate Arrived(steps: seq<Step>, id: string) {
    exists k :: 0 <= k < |steps| && steps[k].Arrives? && IdOf(steps[k].event) == id
  }

  /** The rows of one table that the arrivals stand for: each first occurrence of an id (and each event
      without an id) that is well formed, in arrival order. */
  function Expected(steps: seq<Step>, run: bool): seq<Row> {
    if steps == [] then []
    else
      var init, last := steps[..|steps| - 1], steps[|steps| - 1];
      Expected(init, run)
      + if last.Arrives? && IsRun(last.event) == run && RowOf(last.event).Some?
           && (IdOf(last.event) == "" || !Arrived(init, IdOf(last.event)))
        then [RowOf(last.event).value] else []
  }

  lemma ArrivedLast(steps: seq<Step>, id: string)
    requires steps != []
    ensures var init, last := steps[..|steps| - 1], steps[|steps| - 1];
            Arrived(steps, id) <==> Arrived(init, id) || (last.Arrives? && IdOf(last.event) == id)
  {
    var init := steps[..|steps| - 1];
    if Arrived(init, id) {
      var k :| 0 <= k < |init| && init[k].Arrives? && IdOf(init[k].event) == id;
      assert steps[k] == init[k];
    }
  }

  /** The seen set is the set of ids that arrived. */
  lemma {:induction false} SeenIsArrived(steps: seq<Step>, fails: nat -> bool, id: string)
    ensures id in After(steps, fails).seen <==> id != "" && Arrived(steps, id)
  {
    if steps != [] {
      SeenIsArrived(steps[..|steps| - 1], fails, id);
      ArrivedLast(steps, id);
    }
  }

  // ---------------------------------------------------------------- one step on one lane

  function LaneOf(st: State, run: bool): Lane { if run then st.agent else st.system }

  /** The row a step adds to a lane, if any. */
  function Accepted(st: State, step: Step, run: bool): seq<Row> {
    if step.Arrives? && IsRun(step.event) == run && RowOf(step.event).Some?
       && (IdOf(step.event) == "" || IdOf(step.event) !in st.seen)
    then [RowOf(step.event).value] else []
  }

  /** The lane with what the step adds, before any flush. */
  function Grown(st: State, step: Step, run: bool): Lane {
    LaneOf(st, run).(buffer := LaneOf(st, run).buffer + Accepted(st, step, run))
  }

  /** The number of inserts tried before the step flushes the lane, if it does. */
  function FlushedAt(st: State, step: Step, fails: nat -> bool, run: bool): Option<nat> {
    match step
    case FlushNow =>
      var (_, attempts, ok) := FlushLane(st.agent, st.attempts, fails);
      if run then Some(st.attempts) else if ok then Some(attempts) else None
    case Arrives(_) =>
      if Accepted(st, step, run) != [] && |Grown(st, step, run).buffer| >= BATCH_SIZE then Some(st.attempts) else None
  }

  lemma NextLane(st: State, step: Step, fails: nat -> bool, run: bool)
    ensures LaneOf(Next(st, step, fails), run) ==
            match FlushedAt(st, step, fails, run)
            case None => Grown(st, step, run)
            case Some(attempts) => FlushLane(Grown(st, step, run), attempts, fails).0
  {
    var lane := LaneOf(st, run);
    assert lane.buffer + [] == lane.buffer;
  }

  lemma ExpectedNext(steps: seq<Step>, fails: nat -> bool, run: bool)
    requires steps != []
    ensures var init := steps[..|steps| - 1];
            Expected(steps, run) == Expected(init, run) + Accepted(After(init, fails), steps[|steps| - 1], run)
  {
    var init, last := steps[..|steps| - 1], steps[|steps| - 1];
    if last.Arrives? { SeenIsArrived(init, fails, IdOf(last.event)); }
  }

  // ---------------------------------------------------------------- at least once

  /** All accepted rows are confirmed or buffered: the buffer is the tail of what was accepted, every
      row before it is in the table, and the table holds nothing else. */
  ghost predicate Covers(accepted: seq<Row>, lane: Lane) {
    && |lane.buffer| <= |accepted| && accepted[|accepted| - |lane.buffer|..] == lane.buffer
    && (forall k :: 0 <= k < |accepted| - |lane.buffer| ==> accepted[k] in lane.table)
    && (forall row :: row in lane.table ==> row in accepted)
  }

  lemma {:induction false} InsertAllAdds(table: seq<Row>, rows: seq<Row>, attempts: nat, fails: nat -> bool)
    ensures var (table', _, ok) := InsertAll(table, rows, attempts, fails);
            && table <= table' && (forall row :: row in table' ==> row in table || row in rows)
            && (ok ==> table' == table + rows)
            && ((forall n: nat :: !fails(n)) ==> ok)
    decreases rows
  {
    if rows != [] && !fails(attempts) {
      InsertAllAdds(table + [rows[0]], rows[1..], attempts + 1, fails);
      assert table + rows == table + [rows[0]] + rows[1..];
    }
  }

  lemma FlushCovers(accepted: seq<Row>, lane: Lane, attempts: nat, fails: nat -> bool)
    requires Covers(accepted, lane)
    ensures Covers(accepted, FlushLane(lane, attempts, fails).0)
  {
    InsertAllAdds(lane.table, lane.buffer, attempts, fails);
    var n := |accepted| - |lane.buffer|;
    var lane' := FlushLane(lane, attempts, fails).0;
    assert forall row :: row in lane.buffer ==> row in accepted[n..];
    if lane'.buffer == [] {
      forall k | 0 <= k < |accepted|
        ensures accepted[k] in lane'.table
      {
        if k >= n { assert accepted[n..][k - n] == accepted[k]; }
      }
    }
  }

  lemma GrownCovers(accepted: seq<Row>, st: State, step: Step, run: bool)
    requires Covers(accepted, LaneOf(st, run))
    ensures Covers(accepted + Accepted(st, step, run), Grown(st, step, run))
  {
    var lane, more := LaneOf(st, run), Accepted(st, step, run);
    var n := |accepted| - |lane.buffer|;
    assert (accepted + more)[n..] == accepted[n..] + more;
  }

  /** Whichever inserts fail, no accepted row is ever lost and no other row is ever inserted. */
  lemma {:induction false} NothingLost(steps: seq<Step>, fails: nat -> bool, run: bool)
    ensures Covers(Expected(steps, run), LaneOf(After(steps, fails), run))
  {
    if steps != [] {
      var init, last := steps[..|steps| - 1], steps[|steps| - 1];
      var st := After(init, fails);
      NothingLost(init, fails, run);
      ExpectedNext(steps, fails, run);
      NextLane(st, last, fails, run);
      GrownCovers(Expected(init, run), st, last, run);
      match FlushedAt(st, last, fails, run) {
        case None =>
        case Some(attempts) => FlushCovers(Expected(steps, run), Grown(st, last, run), attempts, fails);
      }
    }
  }

  // ---------------------------------------------------------------- exactly once

  /** The rows a flush inserts that stay in the buffer, to be inserted again: none if it succeeds. */
  function Repeats(lane: Lane, attempts: nat, fails: nat -> bool): int {
    var (lane', _, ok) := FlushLane(lane, attempts, fails);
    if ok then 0 else |lane'.table| - |lane.table|
  }

  function StepRepeats(st: State, step: Step, fails: nat -> bool, run: bool): int {
    match FlushedAt(st, step, fails, run)
    case None => 0
    case Some(attempts) => Repeats(Grown(st, step, run), attempts, fails)
  }

  /** The rows that all the failing flushes of a run inserted in vain. */
  function AllRepeats(steps: seq<Step>, fails: nat -> bool, run: bool): int {
    if steps == [] then 0
    else
      var init := steps[..|steps| - 1];
      AllRepeats(init, fails, run) + StepRepeats(After(init, fails), steps[|steps| - 1], fails, run)
  }

  lemma FlushCounts(lane: Lane, attempts: nat, fails: nat -> bool)
    ensures var lane', n := FlushLane(lane, attempts, fails).0, Repeats(lane, attempts, fails);
            && n >= 0 && |lane'.table| + |lane'.buffer| == |lane.table| + |lane.buffer| + n
            && (n == 0 ==> lane'.table + lane'.buffer == lane.table + lane.buffer)
            && ((forall k: nat :: !fails(k)) ==> n == 0 && lane'.buffer == [])
  {
    InsertAllAdds(lane.table, lane.buffer, attempts, fails);
  }

  lemma StepCounts(st: State, step: Step, fails: nat -> bool, run: bool)
    ensures var lane, lane' := LaneOf(st, run), LaneOf(Next(st, step, fails), run);
            var more, n := Accepted(st, step, run), StepRepeats(st, step, fails, run);
            && n >= 0 && |lane'.table| + |lane'.buffer| == |lane.table| + |lane.buffer| + |more| + n
            && (n == 0 ==> lane'.table + lane'.buffer == lane.table + lane.buffer + more)
            && ((forall k: nat :: !fails(k)) ==> n == 0)
  {
    var grown, more := Grown(st, step, run), Accepted(st, step, run);
    NextLane(st, step, fails, run);
    assert grown.table + grown.buffer == LaneOf(st, run).table + LaneOf(st, run).buffer + more;
    match FlushedAt(st, step, fails, run) {
      case None =>
      case Some(attempts) => FlushCounts(grown, attempts, fails);
    }
  }

  predicate NoneFails(fails: nat -> bool, from: nat, to: nat) { forall n :: from <= n < to ==> !fails(n) }

  /** A buffer is inserted completely exactly when none of its inserts fails. */
  lemma {:induction false} InsertsSucceed(table: seq<Row>, rows: seq<Row>, attempts: nat, fails: nat -> bool)
    ensures InsertAll(table, rows, attempts, fails).2 <==> NoneFails(fails, attempts, attempts + |rows|)
    decreases rows
  {
    if rows != [] && !fails(attempts) { InsertsSucceed(table + [rows[0]], rows[1..], attempts + 1, fails); }
  }

  /** A flush that has nothing to insert, fails at its first insert, or fails at none. */
  predicate Clean(lane: Lane, attempts: nat, fails: nat -> bool) {
    lane.buffer == [] || fails(attempts) || NoneFails(fails, attempts, attempts + |lane.buffer|)
  }

  lemma RepeatsIff(lane: Lane, attempts: nat, fails: nat -> bool)
    ensures Repeats(lane, attempts, fails) == 0 <==> Clean(lane, attempts, fails)
  {
    InsertsSucceed(lane.table, lane.buffer, attempts, fails);
    if lane.buffer != [] && !fails(attempts) {
      InsertAllAdds(lane.table + [lane.buffer[0]], lane.buffer[1..], attempts + 1, fails);
    }
  }

  predicate StepClean(st: State, step: Step, fails: nat -> bool, run: bool) {
    match FlushedAt(st, step, fails, run)
    case None => true
    case Some(attempts) => Clean(Grown(st, step, run), attempts, fails)
  }

  /** Every flush of the lane in the run is clean. */
  predicate AllClean(steps: seq<Step>, fails: nat -> bool, run: bool) {
    steps == []
    || (AllClean(steps[..|steps| - 1], fails, run)
        && StepClean(After(steps[..|steps| - 1], fails), steps[|steps| - 1], fails, run))
  }

  /** Inserted and buffered rows outnumber the accepted ones by exactly the rows
      that failing flushes inserted in vain. */
  lemma {:induction false} RowsConserved(steps: seq<Step>, fails: nat -> bool, run: bool)
    ensures var lane, n := LaneOf(After(steps, fails), run), AllRepeats(steps, fails, run);
            && n >= 0 && |lane.table| + |lane.buffer| == |Expected(steps, run)| + n
            && (n == 0 ==> lane.table + lane.buffer == Expected(steps, run))
  {
    if steps != [] {
      var init, last := steps[..|steps| - 1], steps[|steps| - 1];
      RowsConserved(init, fails, run);
      ExpectedNext(steps, fails, run);
      StepCounts(After(init, fails), last, fails, run);
    }
  }

  lemma {:induction false} NoRepeatsIff(steps: seq<Step>, fails: nat -> bool, run: bool)
    ensures AllRepeats(steps, fails, run) == 0 <==> AllClean(steps, fails, run)
  {
    if steps != [] {
      var init, last := steps[..|steps| - 1], steps[|steps| - 1];
      var st := After(init, fails);
      NoRepeatsIff(init, fails, run);
      RowsConserved(init, fails, run);
      StepCounts(st, last, fails, run);
      match FlushedAt(st, last, fails, run) {
        case None =>
        case Some(attempts) => RepeatsIff(Grown(st, last, run), attempts, fails);
      }
    }
  }

  /** Table and buffer are the accepted rows, each once, in arrival order, if and only if every flush
      of the run either goes through or fails at its first insert. */
  lemma ExactlyOnceIff(steps: seq<Step>, fails: nat -> bool, run: bool)
    ensures var lane := LaneOf(After(steps, fails), run);
            lane.table + lane.buffer == Expected(steps, run) <==> AllClean(steps, fails, run)
  {
    RowsConserved(steps, fails, run);
    NoRepeatsIff(steps, fails, run);
    var lane := LaneOf(After(steps, fails), run);
    assert |lane.table + lane.buffer| == |Expected(steps, run)| + AllRepeats(steps, fails, run);
  }

  lemma {:induction false} NoFailureIsClean(steps: seq<Step>, fails: nat -> bool, run: bool)
    requires forall k: nat :: !fails(k)
    ensures AllClean(steps, fails, run)
  {
    if steps != [] { NoFailureIsClean(steps[..|steps| - 1], fails, run); }
  }

  lemma {:induction false} BuffersStaySmall(steps: seq<Step>, fails: nat -> bool, run: bool)
    requires forall k: nat :: !fails(k)
    ensures |LaneOf(After(steps, fails), run).buffer| < BATCH_SIZE
    ensures steps != [] && steps[|steps| - 1] == FlushNow ==> LaneOf(After(steps, fails), run).buffer == []
  {
    if steps != [] {
      var init, last := steps[..|steps| - 1], steps[|steps| - 1];
      var st := After(init, fails);
      BuffersStaySmall(init, fails, run);
      NextLane(st, last, fails, run);
      FlushCounts(st.agent, st.attempts, fails);
      match FlushedAt(st, last, fails, run) {
        case None =>
        case Some(attempts) => FlushCounts(Grown(st, last, run), attempts, fails);
      }
    }
  }

  /** When no insert fails, after every step each table followed by its buffer is exactly the accepted
      rows, each once, in arrival order, and the buffers stay below the batch size; after a flush the
      table is all of them. */
  lemma ExactlyOnce(steps: seq<Step>, fails: nat -> bool, run: bool)
    requires forall k: nat :: !fails(k)
    ensures var lane := LaneOf(After(steps, fails), run);
            && lane.table + lane.buffer == Expected(steps, run) && |lane.buffer| < BATCH_SIZE
            && (steps != [] && steps[|steps| - 1] == FlushNow ==> lane.table == Expected(steps, run))
  {
    NoFailureIsClean(steps, fails, run);
    ExactlyOnceIff(steps, fails, run);
    BuffersStaySmall(steps, fails, run);
  }

  // ---------------------------------------------------------------- what a row says, and when it is flushed

  /** Which events become rows, and the tenant, run or id, status and payload of these. */
  lemma RowsAre(e: Event)
    ensures IsRun(e) <==> |e.eventType| >= 4 && e.eventType[..4] == "run."
    ensures RowOf(e).Some? <==>
            e.tenantId.Some? && e.readable && (if IsRun(e) then e.runId.Some? else e.eventId.Some?)
    ensures RowOf(e).Some? ==>
              var row := RowOf(e).value;
              && Some(row.tenant) == e.tenantId && row.payload == e.payload
              && if IsRun(e) then
                   && row.AgentRow? && Some(row.run) == e.runId
                   && (row.status == "completed" <==> e.eventType == "run.completed")
                   && (row.status == "failed" <==> e.eventType == "run.failed")
                   && row.status in {"started", "completed", "failed"}
                 else row.SystemRow? && Some(row.id) == e.eventId && row.eventType == e.eventType
  {
    assert "started"[0] != "completed"[0] && "started"[0] != "failed"[0] && "completed"[0] != "failed"[0];
  }

  lemma {:induction false} AttemptsCounted(table: seq<Row>, rows: seq<Row>, attempts: nat, fails: nat -> bool)
    ensures var (_, attempts', ok) := InsertAll(table, rows, attempts, fails);
            attempts <= attempts' <= attempts + |rows| && (ok ==> attempts' == attempts + |rows|)
    decreases rows
  {
    if rows != [] && !fails(attempts) { AttemptsCounted(table + [rows[0]], rows[1..], attempts + 1, fails); }
  }

  /** A lane's flush moves the whole buffer into the table when none of its inserts fails, and keeps it otherwise. */
  lemma LaneFlushIs(lane: Lane, attempts: nat, fails: nat -> bool)
    ensures var (lane', attempts', ok) := FlushLane(lane, attempts, fails);
            && (ok <==> NoneFails(fails, attempts, attempts + |lane.buffer|))
            && (if ok then lane' == Lane(lane.table + lane.buffer, []) && attempts' == attempts + |lane.buffer|
                else lane'.buffer == lane.buffer && lane.table <= lane'.table)
  {
    InsertsSucceed(lane.table, lane.buffer, attempts, fails);
    InsertAllAdds(lane.table, lane.buffer, attempts, fails);
    AttemptsCounted(lane.table, lane.buffer, attempts, fails);
  }

  /** A flush succeeds exactly when no insert among all buffered rows fails, and then both buffers are
      empty; a failing agent row leaves the system rows as they are. */
  lemma FlushIs(st: State, fails: nat -> bool)
    ensures var (st', ok) := Flush(st, fails);
            var agents := st.attempts + |st.agent.buffer|;
            && st'.seen == st.seen && (ok <==> NoneFails(fails, st.attempts, agents + |st.system.buffer|))
            && (ok ==> st'.agent == Lane(st.agent.table + st.agent.buffer, [])
                       && st'.system == Lane(st.system.table + st.system.buffer, []))
            && (!NoneFails(fails, st.attempts, agents) ==>
                  st'.agent.buffer == st.agent.buffer && st'.system == st.system)
            && (!ok && NoneFails(fails, st.attempts, agents) ==>
                  st'.agent == Lane(st.agent.table + st.agent.buffer, []) && st'.system.buffer == st.system.buffer)
  {
    LaneFlushIs(st.agent, st.attempts, fails);
    LaneFlushIs(st.system, st.attempts + |st.agent.buffer|, fails);
  }

  /** An accepted row waits in its buffer until that holds 100 rows; the hundredth has all of them
      inserted, or keeps all of them waiting when an insert fails.  The other lane is left alone. */
  lemma HandleIs(st: State, e: Event, fails: nat -> bool)
    ensures var st', run := Handle(st, e, fails), IsRun(e);
            var lane, lane', more := LaneOf(st, run), LaneOf(st', run), Accepted(st, Arrives(e), run);
            var waiting := lane.buffer + more;
            && LaneOf(st', !run) == LaneOf(st, !run)
            && (more == [] ==> lane' == lane)
            && (more != [] && |waiting| < 100 ==> lane' == Lane(lane.table, waiting) && st'.attempts == st.attempts)
            && (more != [] && |waiting| >= 100 ==>
                  if NoneFails(fails, st.attempts, st.attempts + |waiting|)
                  then lane' == Lane(lane.table + waiting, []) else lane'.buffer == waiting)
  {
    NextLane(st, Arrives(e), fails, IsRun(e));
    LaneFlushIs(Grown(st, Arrives(e), IsRun(e)), st.attempts, fails);
  }

  // ---------------------------------------------------------------- a row inserted twice

  const HELLO := Event(Some("e1"), "user.seen", Some("t"), None, true, "")
  const BYE := Event(Some("e2"), "user.gone", Some("t"), None, true, "")

  const HELLO_ROW := SystemRow("t", "e1", "user.seen", "")
  const BYE_ROW := SystemRow("t", "e2", "user.gone", "")

  lemma GreetingRows()
    ensures !IsRun(HELLO) && RowOf(HELLO) == Some(HELLO_ROW) && !IsRun(BYE) && RowOf(BYE) == Some(BYE_ROW)
  {
    assert "run."[0] != "user.seen"[0] && "run."[0] != "user.gone"[0];
  }

  /** Two rows, of which the second fails to insert once: a second flush inserts the first one again. */
  lemma RetriedFlushRepeats()
    ensures After([Arrives(HELLO), Arrives(BYE), FlushNow, FlushNow], (n: nat) => n == 1).system
            == Lane([HELLO_ROW, HELLO_ROW, BYE_ROW], [])
  {
    var steps, fails := [Arrives(HELLO), Arrives(BYE), FlushNow, FlushNow], (n: nat) => n == 1;
    var hello, bye := HELLO_ROW, BYE_ROW;
    GreetingRows();
    assert steps[..3] == [Arrives(HELLO), Arrives(BYE), FlushNow] && steps[..3][..2] == [Arrives(HELLO), Arrives(BYE)];
    assert steps[..3][..2][..1] == [Arrives(HELLO)] && steps[..3][..2][..1][..0] == [];
    var empty: Lane := Lane([], []);
    assert After(steps[..3][..2][..1], fails) == State({"e1"}, empty, Lane([], [hello]), 0);
    var st2 := After(steps[..3][..2], fails);
    assert [] + [hello] == [hello] && [hello] + [bye] == [hello, bye];
    assert st2 == State({"e1", "e2"}, empty, Lane([], [hello, bye]), 0);
    assert [hello, bye][1..] == [bye] && |[bye][1..]| == 0;
    assert InsertAll([hello], [bye], 1, fails) == ([hello], 2, false);
    assert InsertAll([], [hello, bye], 0, fails) == ([hello], 2, false);
    assert After(steps[..3], fails) == State(st2.seen, empty, Lane([hello], [hello, bye]), 2);
    assert [hello] + [hello] == [hello, hello] && [hello, hello] + [bye] == [hello, hello, bye];
    assert InsertAll([hello, hello, bye], [bye][1..], 4, fails) == ([hello, hello, bye], 4, true);
    assert InsertAll([hello, hello], [bye], 3, fails) == ([hello, hello, bye], 4, true);
    assert InsertAll([hello], [hello, bye], 2, fails) == ([hello, hello, bye], 4, true);
  }
}
