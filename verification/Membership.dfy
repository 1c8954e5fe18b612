/**
 The membership row of one node ID, which several processes may contest: the
 two slots of a blue-green deploy, or processes misconfigured with the same ID.
 Times are database times in microseconds.
 */
module Membership {
  import opened Text

  const ACTIVE_WINDOW := 20_000_000
  const RETENTION := 7 * 24 * 3600 * 1_000_000

  datatype Row = Row(started: int, lastSeen: int, stopped: bool)

  /** `stopped_at IS NULL AND last_seen > now() - 20 seconds`. */
  predicate Active(row: Option<Row>, now: int) {
    row.Some? && !row.value.stopped && row.value.lastSeen > now - ACTIVE_WINDOW
  }

  /** The row of this process. */
  predicate Owns(row: Option<Row>, started: int) { row.Some? && row.value.started == started }

  // The SQL statements.

  function HeartbeatSql(row: Option<Row>, started: int, now: int): Option<Row> {
    if Owns(row, started) then Some(Row(started, now, false)) else row
  }

  function ReclaimSql(started: int, now: int): Option<Row> { Some(Row(started, now, false)) }

  function MarkStoppedSql(row: Option<Row>, started: int): Option<Row> {
    if Owns(row, started) then Some(row.value.(stopped := true)) else row
  }

  function PruneSql(row: Option<Row>, now: int): Option<Row> {
    if row.Some? && row.value.lastSeen < now - RETENTION then None else row
  }

  /** What `reclaim` decides after inspecting the row: leave it to a newer live process. */
  predicate Yields(row: Option<Row>, started: int, now: int) {
    Active(row, now) && row.value.started > started
  }

  // ---------------------------------------------------------------------------
  // One undisturbed heartbeat
  // ---------------------------------------------------------------------------

  /** The process's view of the row, updated in place. */
  class Node {
    const started: int
    var row: Option<Row>
    /** A newer process has taken the row. */
    var superseded: bool

    /** Registration takes the row, whoever had it. */
    constructor (now: int)
      ensures started == now && this.row == Some(Row(now, now, false)) && !superseded
    {
      started := now;
      this.row := Some(Row(now, now, false));
      superseded := false;
    }

    /**
     `heartbeat` with no other process in between: the process has the row and
     counts as active afterwards, unless it left the row to a newer live one.
     */
    method Heartbeat(now: int)
      modifies this
      ensures Yields(old(row), started, now) ==> row == old(row) && superseded
      ensures !Yields(old(row), started, now) ==> Owns(row, started) && Active(row, now)
      ensures !Yields(old(row), started, now) && !Owns(old(row), started) ==> !superseded
    {
      var updated := Owns(row, started);
      row := HeartbeatSql(row, started, now);
      if !updated {
        if Yields(row, started, now) {
          superseded := true;
          return;
        }
        superseded := false;
        row := ReclaimSql(started, now);
      }
    }
  }

  // ---------------------------------------------------------------------------
  // Interleaved processes
  // ---------------------------------------------------------------------------

  type Pid = nat

  /** Where a process is in its heartbeat. */
  datatype At = Resting | Unmatched | WillReclaim

  datatype Proc = Proc(started: int, at: At)

  datatype State = State(now: int, row: Option<Row>, procs: map<Pid, Proc>)

  datatype Step =
    | Tick(d: nat)
    | Register(p: Pid)
    | Beat(p: Pid)
    | Inspect(p: Pid)
    | Abandon(p: Pid)
    | Reclaim(p: Pid)
    | MarkStopped(p: Pid)
    | Crash(p: Pid)
    | Prune

  predicate Enabled(s: State, step: Step) {
    match step
    case Tick(_) => true
    case Register(p) => p !in s.procs
    case Beat(p) => p in s.procs && s.procs[p].at == Resting
    case Inspect(p) => p in s.procs && s.procs[p].at == Unmatched
    case Abandon(p) => p in s.procs
    case Reclaim(p) => p in s.procs && s.procs[p].at == WillReclaim
    case MarkStopped(p) => p in s.procs
    case Crash(p) => p in s.procs
    case Prune => true
  }

  function Moved(s: State, p: Pid, at: At): State
    requires p in s.procs
  {
    s.(procs := s.procs[p := s.procs[p].(at := at)])
  }

  function Next(s: State, step: Step): State
    requires Enabled(s, step)
  {
    match step
    case Tick(d) => s.(now := s.now + d)
    case Register(p) => s.(row := Some(Row(s.now, s.now, false)), procs := s.procs[p := Proc(s.now, Resting)])
    case Beat(p) =>
      Moved(s, p, if Owns(s.row, s.procs[p].started) then Resting else Unmatched)
        .(row := HeartbeatSql(s.row, s.procs[p].started, s.now))
    case Inspect(p) => Moved(s, p, if Yields(s.row, s.procs[p].started, s.now) then Resting else WillReclaim)
    case Abandon(p) => Moved(s, p, Resting)
    case Reclaim(p) => Moved(s, p, Resting).(row := ReclaimSql(s.procs[p].started, s.now))
    case MarkStopped(p) =>
      s.(row := MarkStoppedSql(s.row, s.procs[p].started), procs := s.procs - {p})
    case Crash(p) => s.(procs := s.procs - {p})
    case Prune => s.(row := PruneSql(s.row, s.now))
  }

  /** The newest process has the row and has refreshed it in time. */
  ghost predicate Leads(s: State, top: Pid) {
    && top in s.procs && Owns(s.row, s.procs[top].started) && Active(s.row, s.now)
    && forall p :: p in s.procs && p != top ==> s.procs[p].started < s.procs[top].started
  }

  /** No older process sits between inspecting the row and taking it back. */
  ghost predicate NoReclaimDue(s: State, top: Pid) {
    forall p :: p in s.procs && p != top ==> s.procs[p].at != WillReclaim
  }

  ghost predicate Settled(s: State, top: Pid) { Leads(s, top) && NoReclaimDue(s, top) }

  /** A step of another process, the clock, or the pruning leader. */
  predicate ByOthers(step: Step, top: Pid) {
    match step
    case Register(_) => false
    case Tick(_) => true
    case Prune => true
    case _ => step.p != top
  }

  /**
   No heartbeat, inspection, shutdown or crash of an older process changes the
   row, nor do the clock and pruning: the row changes if and only if an older
   process reclaims it.
   */
  lemma OlderProcessesLeaveTheRow(s: State, step: Step, top: Pid)
    requires Leads(s, top) && Enabled(s, step) && ByOthers(step, top)
    ensures Next(s, step).row == s.row <==> !step.Reclaim?
    ensures NoReclaimDue(s, top) && Active(s.row, Next(s, step).now) ==> Settled(Next(s, step), top)
  {
    if step.Reclaim? {
      assert s.procs[step.p].started < s.procs[top].started;
    }
  }

  ghost predicate ValidRun(s: State, steps: seq<Step>)
    decreases |steps|
  {
    steps == [] || (Enabled(s, steps[0]) && ValidRun(Next(s, steps[0]), steps[1..]))
  }

  ghost function Run(s: State, steps: seq<Step>): State
    requires ValidRun(s, steps)
    decreases |steps|
  {
    if steps == [] then s else Run(Next(s, steps[0]), steps[1..])
  }

  /** In every state of the run the row was refreshed within the active window. */
  ghost predicate RefreshedInTime(s: State, steps: seq<Step>)
    requires ValidRun(s, steps)
    decreases |steps|
  {
    Active(s.row, s.now) && (steps == [] || RefreshedInTime(Next(s, steps[0]), steps[1..]))
  }

  /** Anything but a newer registration and the end of the newest process itself. */
  predicate Peaceful(step: Step, top: Pid) {
    !step.Register? && step != MarkStopped(top) && step != Crash(top)
  }

  /**
   Stability: while the newest process refreshes in time it keeps the row
   through every run of the older ones.
   */
  lemma {:induction false} NewestKeepsTheRow(s: State, steps: seq<Step>, top: Pid)
    requires Settled(s, top) && ValidRun(s, steps) && RefreshedInTime(s, steps)
    requires forall i :: 0 <= i < |steps| ==> Peaceful(steps[i], top)
    ensures Settled(Run(s, steps), top)
    decreases |steps|
  {
    if steps != [] {
      if ByOthers(steps[0], top) {
        OlderProcessesLeaveTheRow(s, steps[0], top);
      }
      NewestKeepsTheRow(Next(s, steps[0]), steps[1..], top);
    }
  }

  /** The newest process still has the row after every timely run without a newer registration. */
  ghost predicate KeepsTheRow(s: State, top: Pid)
    requires top in s.procs
  {
    forall steps: seq<Step> ::
      ValidRun(s, steps) && RefreshedInTime(s, steps) && (forall i :: 0 <= i < |steps| ==> Peaceful(steps[i], top)) ==>
        Owns(Run(s, steps).row, s.procs[top].started)
  }

  lemma {:induction false} StartTimeStays(s: State, steps: seq<Step>, top: Pid)
    requires top in s.procs && ValidRun(s, steps)
    requires forall i :: 0 <= i < |steps| ==> Peaceful(steps[i], top)
    ensures top in Run(s, steps).procs && Run(s, steps).procs[top].started == s.procs[top].started
    decreases |steps|
  {
    if steps != [] {
      StartTimeStays(Next(s, steps[0]), steps[1..], top);
    }
  }

  /**
   The exact condition: the newest process keeps the row through every run if
   and only if no older process is about to reclaim it at the outset.
   */
  lemma KeepsTheRowIff(s: State, top: Pid)
    requires Leads(s, top)
    ensures KeepsTheRow(s, top) <==> NoReclaimDue(s, top)
  {
    if NoReclaimDue(s, top) {
      forall steps: seq<Step> |
        ValidRun(s, steps) && RefreshedInTime(s, steps) && (forall i :: 0 <= i < |steps| ==> Peaceful(steps[i], top))
        ensures Owns(Run(s, steps).row, s.procs[top].started)
      {
        NewestKeepsTheRow(s, steps, top);
        StartTimeStays(s, steps, top);
      }
    } else {
      var p :| p in s.procs && p != top && s.procs[p].at == WillReclaim;
      var t := Next(s, Reclaim(p));
      var steps := [Reclaim(p)];
      assert steps[1..] == [] && ValidRun(t, []) && Run(t, []) == t && RefreshedInTime(t, []);
      assert ValidRun(s, steps) && RefreshedInTime(s, steps) && Run(s, steps) == t;
      assert !Owns(t.row, s.procs[top].started);
    }
  }

  /** One whole heartbeat of `p` with no other step in between. */
  function Round(s: State, p: Pid): State
    requires p in s.procs && s.procs[p].at == Resting
  {
    var s1 := Next(s, Beat(p));
    var s2 := if s1.procs[p].at == Unmatched then Next(s1, Inspect(p)) else s1;
    if s2.procs[p].at == WillReclaim then Next(s2, Reclaim(p)) else s2
  }

  /**
   Whatever the row says, one undisturbed heartbeat of a process gives it the
   row if and only if no newer process is active in it; otherwise nothing changes.
   */
  lemma OneRoundTakesTheRow(s: State, p: Pid)
    requires p in s.procs && s.procs[p].at == Resting
    ensures Owns(Round(s, p).row, s.procs[p].started) && Active(Round(s, p).row, s.now) <==>
            !Yields(s.row, s.procs[p].started, s.now)
    ensures Yields(s.row, s.procs[p].started, s.now) ==> Round(s, p) == s
  {
  }

  /**
   Self-stabilisation: one undisturbed heartbeat of the newest process settles
   the row for good, unless a newer process that is gone still counts as active.
   */
  lemma RoundSettles(s: State, top: Pid)
    requires top in s.procs && s.procs[top].at == Resting
    requires forall p :: p in s.procs && p != top ==>
             s.procs[p].started < s.procs[top].started && s.procs[p].at != WillReclaim
    ensures Settled(Round(s, top), top) <==> !Yields(s.row, s.procs[top].started, s.now)
  {
    OneRoundTakesTheRow(s, top);
    assert Round(s, top).procs == s.procs && Round(s, top).now == s.now;
  }

  /**
   That exception occurs: a newer process of the same node registers and crashes,
   and for twenty seconds the older one leaves the row to it.
   */
  lemma DepartedStillCounts(now: int, d: nat)
    requires 0 < d
    ensures var steps := [Register(1), Tick(d), Register(2), Crash(2)];
            var s := State(now, None, map[]);
            ValidRun(s, steps) &&
            var t := Run(s, steps);
            1 in t.procs && t.procs[1].at == Resting && t.procs.Keys == {1}
                && !Owns(Round(t, 1).row, t.procs[1].started)
  {
    var steps := [Register(1), Tick(d), Register(2), Crash(2)];
    var s0 := State(now, None, map[]);
    var s1 := Next(s0, Register(1));
    var s2 := Next(s1, Tick(d));
    var s3 := Next(s2, Register(2));
    var s4 := Next(s3, Crash(2));
    assert steps[1..] == [Tick(d), Register(2), Crash(2)];
    assert steps[1..][1..] == [Register(2), Crash(2)];
    assert steps[1..][1..][1..] == [Crash(2)];
    assert ValidRun(s4, []) && Run(s4, []) == s4;
    assert ValidRun(s3, [Crash(2)]) && Run(s3, [Crash(2)]) == s4;
    assert ValidRun(s2, [Register(2), Crash(2)]) && Run(s2, [Register(2), Crash(2)]) == s4;
    assert ValidRun(s1, steps[1..]) && Run(s1, steps[1..]) == s4;
    assert s4.procs == map[1 := Proc(now, Resting)] && s4.row == Some(Row(now + d, now + d, false));
    OneRoundTakesTheRow(s4, 1);
  }

  /**
   The exception is real, from an empty table: a process whose row was pruned
   while it was cut off inspects the missing row, a newer one registers, and the
   older one reclaims.
   */
  lemma InspectionRace(now: int)
    ensures var steps := [Register(1), Tick(RETENTION + 1), Prune, Beat(1), Inspect(1), Register(2), Reclaim(1)];
            var s := State(now, None, map[]);
            ValidRun(s, steps) &&
            var t := Run(s, steps);
            && t.procs.Keys == {1, 2} && t.procs[1].started < t.procs[2].started
            && Owns(t.row, t.procs[1].started) && !Owns(t.row, t.procs[2].started)
  {
    var s := State(now, None, map[]);
    var later := now + RETENTION + 1;
    var first := [Register(1), Tick(RETENTION + 1), Prune];
    var second := [Beat(1), Inspect(1), Register(2), Reclaim(1)];
    PrunedWhileAway(now);
    RaceOverMissingRow(now, later);
    RunConcat(s, first, second);
    assert first + second == [Register(1), Tick(RETENTION + 1), Prune, Beat(1), Inspect(1), Register(2), Reclaim(1)];
  }

  lemma {:induction false} RunConcat(s: State, a: seq<Step>, b: seq<Step>)
    requires ValidRun(s, a) && ValidRun(Run(s, a), b)
    ensures ValidRun(s, a + b) && Run(s, a + b) == Run(Run(s, a), b)
    decreases |a|
  {
    if a == [] {
      assert a + b == b;
    } else {
      RunConcat(Next(s, a[0]), a[1..], b);
      assert (a + b)[1..] == a[1..] + b;
    }
  }

  lemma PrunedWhileAway(now: int)
    ensures var s, steps := State(now, None, map[]), [Register(1), Tick(RETENTION + 1), Prune];
            ValidRun(s, steps) && Run(s, steps) == State(now + RETENTION + 1, None, map[1 := Proc(now, Resting)])
  {
    var s0, steps := State(now, None, map[]), [Register(1), Tick(RETENTION + 1), Prune];
    var s1 := Next(s0, Register(1));
    var s2 := Next(s1, Tick(RETENTION + 1));
    var s3 := Next(s2, Prune);
    assert steps[1..] == [Tick(RETENTION + 1), Prune] && steps[1..][1..] == [Prune];
    assert ValidRun(s3, []) && Run(s3, []) == s3;
    assert ValidRun(s2, [Prune]) && Run(s2, [Prune]) == s3;
    assert ValidRun(s1, steps[1..]) && Run(s1, steps[1..]) == s3;
  }

  lemma RaceOverMissingRow(older: int, now: int)
    requires older < now
    ensures var s, steps := State(now, None, map[1 := Proc(older, Resting)]), [Beat(1), Inspect(1), Register(2),
            Reclaim(1)];
            ValidRun(s, steps) &&
            Run(s, steps) == State(now, Some(Row(older, now, false)), map[1 := Proc(older, Resting), 2 := Proc(now,
                Resting)])
  {
    var s0 := State(now, None, map[1 := Proc(older, Resting)]);
    var steps := [Beat(1), Inspect(1), Register(2), Reclaim(1)];
    var s1 := Next(s0, steps[0]);
    assert s1.procs[1].at == Unmatched;
    var s2 := Next(s1, Inspect(1));
    var s3 := Next(s2, Register(2));
    var s4 := Next(s3, Reclaim(1));
    assert steps[1..] == [Inspect(1), Register(2), Reclaim(1)];
    assert steps[1..][1..] == [Register(2), Reclaim(1)];
    assert steps[1..][1..][1..] == [Reclaim(1)];
    assert ValidRun(s4, []) && Run(s4, []) == s4;
    assert ValidRun(s3, [Reclaim(1)]) && Run(s3, [Reclaim(1)]) == s4;
    assert ValidRun(s2, [Register(2), Reclaim(1)]) && Run(s2, [Register(2), Reclaim(1)]) == s4;
    assert ValidRun(s1, steps[1..]) && Run(s1, steps[1..]) == s4;
    assert s4.procs == map[1 := Proc(older, Resting), 2 := Proc(now, Resting)];
  }

  /** A process that stops marks its own row, which is then inactive for everyone, and no row of another. */
  lemma StopMeans(row: Option<Row>, started: int, now: int)
    ensures Owns(row, started) ==>
              MarkStoppedSql(row, started) == Some(Row(started, row.value.lastSeen, true))
              && !Active(MarkStoppedSql(row, started), now)
    ensures !Owns(row, started) ==> MarkStoppedSql(row, started) == row
  {
  }

  /**
   A process leaves the row alone exactly when a newer one was seen in it in the
   last twenty seconds and has not stopped.
   */
  lemma YieldsMeans(row: Option<Row>, started: int, now: int)
    ensures Yields(row, started, now) <==>
            row.Some? && row.value.started > started && !row.value.stopped && now < row.value.lastSeen + 20_000_000
  {
  }

  /** A row is active for twenty seconds after it was last refreshed, unless it was stopped. */
  lemma ActiveMeans(row: Row, now: int)
    ensures Active(Some(row), now) <==> !row.stopped && now < row.lastSeen + 20_000_000
  {
  }

  /** Pruning deletes a row seven days after it was last refreshed, and no other. */
  lemma PruneMeans(row: Option<Row>, now: int)
    ensures PruneSql(row, now) ==
            if row.Some? && now > row.value.lastSeen + 7 * 24 * 60 * 60 * 1_000_000 then None else row
  {
  }

  /** When the newer process stops, the next heartbeat of the older one takes the row back. */
  lemma OlderTakesOverAfterStop(s: State, older: Pid, newer: Pid)
    requires older in s.procs && newer in s.procs && older != newer && s.procs[older].at == Resting
    requires Owns(s.row, s.procs[newer].started) && s.procs[newer].started > s.procs[older].started
    ensures var t := Next(s, MarkStopped(newer));
            && older in t.procs && t.procs[older].at == Resting
            && Owns(Round(t, older).row, s.procs[older].started) && Active(Round(t, older).row, s.now)
  {
    var t := Next(s, MarkStopped(newer));
    StopMeans(s.row, s.procs[newer].started, s.now);
    OneRoundTakesTheRow(t, older);
  }
}
