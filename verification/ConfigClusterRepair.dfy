/**
 What becomes of a change that is not covered: which steps bring it back, which
 units one Resync repairs, and how every unsafe step can end in a node that is
 quiet and out of date.
 */
module ConfigClusterRepair {
  import opened Text
  import opened ConfigEvents
  import opened Dispatcher
  import opened ConfigCluster

  // ---------------------------------------------------------------------------
  // Lost changes
  // ---------------------------------------------------------------------------

  /** No comparison finds the unit: everything the dispatcher compares with has its current version. */
  predicate Unseen(db: Versions, x: Node, u: Unit) {
    match x.work
    case Scanned(_, resync, current) =>
      (current.Some? ==> !Differs(current, db, u)) && (resync || current.None? ==> !Differs(x.applied, db, u))
    case Reloading(_, after) => !Differs(after, db, u)
    case _ => !Differs(x.applied, db, u)
  }

  /** The node holds an old version, nothing announces it, and no comparison finds it. */
  predicate Lost(db: Versions, id: NodeId, x: Node, u: Unit) {
    Stale(db, x, u) && !OnItsWay(id, x, u) && Unseen(db, x, u)
  }

  /**
   What brings a lost change back: the next commit of the unit, a reload of
   everything, or a plan made without a snapshot that counts an older write of
   the node itself as applied.
   */
  predicate Rescues(s: State, step: Step, id: NodeId, u: Unit)
    requires Enabled(s, step) && id in s.nodes
  {
    || (step.Commit? && step.u == u)
    || (step == Plan(id) && (ReloadsAll(s.handlers, s.nodes[id])
                             || (s.nodes[id].work.current.None? && u in s.nodes[id].notes)))
  }

  lemma LostAtPlan(db: Versions, handlers: set<string>, id: NodeId, x: Node, u: Unit)
    requires NodeOk(db, x) && x.work.Scanned? && Lost(db, id, x, u)
    ensures Lost(db, id, Planned(db, handlers, x), u) <==>
            !(ReloadsAll(handlers, x) || (x.work.current.None? && u in x.notes))
  {
    NoteIsOlder(db, x, u);
    if !NothingKnown(x) && x.work.current.Some? && x.applied.Some? {
      AbsorbingPassesOver(db, x, u);
    }
  }

  lemma LostAtOwnStep(db: Versions, handlers: set<string>, x: Node, step: Step, u: Unit)
    requires NodeOk(db, x) && EnabledAt(x, step) && Lost(db, step.n, x, u)
    requires !step.Commit? && !step.Join? && !step.Plan?
    ensures Lost(db, step.n, Acted(db, handlers, x, step), u)
  {
    NoteIsOlder(db, x, u);
    if step.Deliver? {
      InboxHeadAndTail(step.n, x.inbox, u);
    }
  }

  lemma LostAtCommit(db: Versions, id: NodeId, x: Node, n: NodeId, w: Unit, u: Unit)
    requires NodeOk(db, x) && Lost(db, id, x, u)
    ensures Lost(db[w := VersionOf(db, w) + 1], id, Committed(id, x, n, w, VersionOf(db, w) + 1), u) <==> w != u
  {
    NotifyCovers(db, {}, id, x, Announced(n, w, VersionOf(db, w) + 1), u);
    NoteIsOlder(db, x, u);
  }

  /** A lost change stays lost through every step, Resyncs included, if and only if the step does not rescue it. */
  lemma LostUntilRescued(s: State, step: Step, id: NodeId, u: Unit)
    requires Ok(s) && Enabled(s, step) && id in s.nodes && Lost(s.db, id, s.nodes[id], u)
    ensures Lost(NextDb(s, step), id, NextNode(s, step, id), u) <==> !Rescues(s, step, id, u)
  {
    var x := s.nodes[id];
    assert NodeOk(s.db, x);
    if step.Commit? {
      LostAtCommit(s.db, id, x, step.n, step.u, u);
    } else if step.Join? {
      NotifyCovers(s.db, s.handlers, id, x, Joined(step.n), u);
    } else if id == step.n {
      if step.Plan? {
        LostAtPlan(s.db, s.handlers, id, x, u);
      } else {
        LostAtOwnStep(s.db, s.handlers, x, step, u);
      }
    }
  }

  ghost predicate NoRescue(s: State, steps: seq<Step>, id: NodeId, u: Unit)
    requires ValidRun(s, steps) && id in s.nodes
    decreases |steps|
  {
    steps == [] || (!Rescues(s, steps[0], id, u) && NoRescue(Next(s, steps[0]), steps[1..], id, u))
  }

  /** However long the run and however many Resyncs it has, without a rescue the node stays out of date. */
  lemma {:induction false} LostForGood(s: State, steps: seq<Step>, id: NodeId, u: Unit)
    requires Ok(s) && id in s.nodes && Lost(s.db, id, s.nodes[id], u)
    requires ValidRun(s, steps) && NoRescue(s, steps, id, u)
    ensures id in Run(s, steps).nodes && Lost(Run(s, steps).db, id, Run(s, steps).nodes[id], u)
    decreases |steps|
  {
    if steps != [] {
      StepKeepsOk(s, steps[0]);
      LostUntilRescued(s, steps[0], id, u);
      LostForGood(Next(s, steps[0]), steps[1..], id, u);
    }
  }

  // ---------------------------------------------------------------------------
  // Runs of one node
  // ---------------------------------------------------------------------------

  /** A step of the node's own listener or worker, in which nothing fails. */
  predicate OwnStep(id: NodeId, step: Step) {
    step.n == id &&
    match step
    case Query(_, ok) => ok
    case Reload(_, _, ok) => ok
    case Deliver(_) => true
    case Drain(_) => true
    case Plan(_) => true
    case Finish(_) => true
    case Connect(_) => true
    case HandResync(_) => true
    case Load(_) => true
    case Baseline(_, ok) => ok
    case Subscribe(_) => true
    case _ => false
  }

  ghost predicate OwnRun(db: Versions, handlers: set<string>, id: NodeId, x: Node, steps: seq<Step>)
    decreases |steps|
  {
    steps == [] ||
    (OwnStep(id, steps[0]) && EnabledAt(x, steps[0])
        && OwnRun(db, handlers, id, Acted(db, handlers, x, steps[0]), steps[1..]))
  }

  ghost function OwnEnd(db: Versions, handlers: set<string>, id: NodeId, x: Node, steps: seq<Step>): Node
    requires OwnRun(db, handlers, id, x, steps)
    decreases |steps|
  {
    if steps == [] then x else OwnEnd(db, handlers, id, Acted(db, handlers, x, steps[0]), steps[1..])
  }

  lemma {:induction false} OwnRunAppend(db: Versions, handlers: set<string>, id: NodeId, x: Node, a: seq<Step>,
                                        b: seq<Step>)
    requires OwnRun(db, handlers, id, x, a) && OwnRun(db, handlers, id, OwnEnd(db, handlers, id, x, a), b)
    ensures OwnRun(db, handlers, id, x, a + b)
    ensures OwnEnd(db, handlers, id, x, a + b) == OwnEnd(db, handlers, id, OwnEnd(db, handlers, id, x, a), b)
    decreases |a|
  {
    if a == [] {
      assert a + b == b;
    } else {
      OwnRunAppend(db, handlers, id, Acted(db, handlers, x, a[0]), a[1..], b);
      assert (a + b)[1..] == a[1..] + b;
    }
  }

  lemma OwnFirst(db: Versions, handlers: set<string>, id: NodeId, x: Node, step: Step, rest: seq<Step>)
    requires OwnStep(id, step) && EnabledAt(x, step) && OwnRun(db, handlers, id, Acted(db, handlers, x, step), rest)
    ensures OwnRun(db, handlers, id, x, [step] + rest)
    ensures OwnEnd(db, handlers, id, x, [step] + rest) == OwnEnd(db, handlers, id, Acted(db, handlers, x, step), rest)
  {
    assert ([step] + rest)[1..] == rest;
  }

  /** A run of one node is a run of the cluster that leaves the database and the other nodes alone. */
  lemma {:induction false} OwnRunIsRun(s: State, id: NodeId, steps: seq<Step>)
    requires id in s.nodes && OwnRun(s.db, s.handlers, id, s.nodes[id], steps)
    ensures ValidRun(s, steps)
    ensures Run(s, steps) == s.(nodes := s.nodes[id := OwnEnd(s.db, s.handlers, id, s.nodes[id], steps)])
    decreases |steps|
  {
    if steps == [] {
      assert s.nodes[id := s.nodes[id]] == s.nodes;
    } else {
      var t := Next(s, steps[0]);
      assert t == s.(nodes := s.nodes[id := Acted(s.db, s.handlers, s.nodes[id], steps[0])]);
      OwnRunIsRun(t, id, steps[1..]);
      var e := OwnEnd(s.db, s.handlers, id, s.nodes[id], steps);
      assert t.nodes[id := e] == s.nodes[id := e];
    }
  }

  // ---------------------------------------------------------------------------
  // Becoming quiet
  // ---------------------------------------------------------------------------

  /** `y` is `x` after a reload of `todo`, with nothing else received or queued. */
  predicate ReloadDone(db: Versions, x: Node, y: Node, todo: set<Unit>) {
    && y.work == Idle && y.stage == x.stage && y.link == x.link && y.inbox == x.inbox && y.queue == x.queue
    && y.loaded == x.loaded + map u | u in todo && u in db :: db[u]
  }

  lemma ReloadOneMore(db: Versions, x: Node, u: Unit, y: Node)
    requires x.work.Reloading? && u in x.work.todo
    requires ReloadDone(db, Reloaded(db, x, u, true), y, x.work.todo - {u})
    ensures ReloadDone(db, x, y, x.work.todo)
  {
    var z := Reloaded(db, x, u, true);
    assert z.loaded + (map w | w in x.work.todo - {u} && w in db :: db[w])
        == x.loaded + (map w | w in x.work.todo && w in db :: db[w]);
  }

  /** The reload in progress can be completed. */
  lemma {:induction false} CompleteReload(db: Versions, handlers: set<string>, id: NodeId, x: Node)
    returns (steps: seq<Step>)
    requires x.work.Reloading?
    ensures OwnRun(db, handlers, id, x, steps)
    ensures ReloadDone(db, x, OwnEnd(db, handlers, id, x, steps), x.work.todo)
    decreases x.work.todo
  {
    if x.work.todo == {} {
      steps := [Finish(id)];
      OwnFirst(db, handlers, id, x, Finish(id), []);
    } else {
      var u :| u in x.work.todo;
      var step := Reload(id, u, true);
      var rest := CompleteReload(db, handlers, id, Acted(db, handlers, x, step));
      OwnFirst(db, handlers, id, x, step, rest);
      steps := [step] + rest;
      ReloadOneMore(db, x, u, OwnEnd(db, handlers, id, x, steps));
    }
  }

  /** The whole round from a drained batch: snapshot, plan, reload. */
  lemma CompleteRound(db: Versions, handlers: set<string>, id: NodeId, x: Node) returns (steps: seq<Step>)
    requires x.work.Drained?
    ensures OwnRun(db, handlers, id, x, steps)
    ensures ReloadDone(db, x, OwnEnd(db, handlers, id, x, steps), Planned(db, handlers, Queried(db, x, true)).work.todo)
  {
    var y := Queried(db, x, true);
    var rest := CompleteReload(db, handlers, id, Planned(db, handlers, y));
    OwnFirst(db, handlers, id, y, Plan(id), rest);
    OwnFirst(db, handlers, id, x, Query(id, true), [Plan(id)] + rest);
    steps := [Query(id, true)] + ([Plan(id)] + rest);
  }

  predicate WorkDone(x: Node, y: Node) {
    y.work == Idle && y.stage == x.stage && y.link == x.link && y.inbox == x.inbox && y.queue == x.queue
  }

  lemma CompleteWork(db: Versions, handlers: set<string>, id: NodeId, x: Node) returns (steps: seq<Step>)
    ensures OwnRun(db, handlers, id, x, steps) && WorkDone(x, OwnEnd(db, handlers, id, x, steps))
  {
    match x.work
    case Idle => steps := [];
    case Drained(_, _) => steps := CompleteRound(db, handlers, id, x);
    case Scanned(_, _, _) =>
      var rest := CompleteReload(db, handlers, id, Planned(db, handlers, x));
      OwnFirst(db, handlers, id, x, Plan(id), rest);
      steps := [Plan(id)] + rest;
    case Reloading(_, _) => steps := CompleteReload(db, handlers, id, x);
  }

  /** A node that is starting can go on to serve. */
  lemma StartUp(db: Versions, handlers: set<string>, id: NodeId, x: Node) returns (steps: seq<Step>)
    requires x.work == Idle
    ensures OwnRun(db, handlers, id, x, steps)
    ensures var y := OwnEnd(db, handlers, id, x, steps); y.work == Idle && y.stage == Serving
    decreases match x.stage case Unloaded => 3 case Loaded => 2 case Based => 1 case Serving => 0
  {
    if x.stage == Serving {
      steps := [];
    } else {
      var step := match x.stage
        case Unloaded => Load(id)
        case Loaded => Baseline(id, true)
        case _ => Subscribe(id);
      var rest := StartUp(db, handlers, id, Acted(db, handlers, x, step));
      OwnFirst(db, handlers, id, x, step, rest);
      steps := [step] + rest;
    }
  }

  /** A listener that is cut off can come back and hand its Resync over. */
  lemma GoLive(db: Versions, handlers: set<string>, id: NodeId, x: Node) returns (steps: seq<Step>)
    requires x.work == Idle && x.stage == Serving
    ensures OwnRun(db, handlers, id, x, steps)
    ensures var y := OwnEnd(db, handlers, id, x, steps); y.work == Idle && y.stage == Serving && y.link == Live
  {
    if x.link == Live {
      steps := [];
    } else {
      var y := if x.link == Down then Acted(db, handlers, x, Connect(id)) else x;
      OwnFirst(db, handlers, id, y, HandResync(id), []);
      steps := [HandResync(id)];
      if x.link == Down {
        OwnFirst(db, handlers, id, x, Connect(id), steps);
        steps := [Connect(id)] + steps;
      }
    }
  }

  lemma {:induction false} EmptyInbox(db: Versions, handlers: set<string>, id: NodeId, x: Node)
    returns (steps: seq<Step>)
    requires x.work == Idle && x.stage == Serving && x.link == Live
    ensures OwnRun(db, handlers, id, x, steps)
    ensures var y := OwnEnd(db, handlers, id, x, steps);
            y.work == Idle && y.stage == Serving && y.link == Live && y.inbox == []
    decreases |x.inbox|
  {
    if x.inbox == [] {
      steps := [];
    } else {
      var rest := EmptyInbox(db, handlers, id, Acted(db, handlers, x, Deliver(id)));
      OwnFirst(db, handlers, id, x, Deliver(id), rest);
      steps := [Deliver(id)] + rest;
    }
  }

  lemma DrainAndComplete(db: Versions, handlers: set<string>, id: NodeId, x: Node) returns (steps: seq<Step>)
    requires x.work == Idle && x.stage == Serving && x.link == Live && x.inbox == []
    ensures OwnRun(db, handlers, id, x, steps) && Quiet(OwnEnd(db, handlers, id, x, steps))
  {
    var rest := CompleteWork(db, handlers, id, Acted(db, handlers, x, Drain(id)));
    OwnFirst(db, handlers, id, x, Drain(id), rest);
    steps := [Drain(id)] + rest;
  }

  /** From every state a node can become quiet by its own steps. */
  lemma BecomeQuiet(db: Versions, handlers: set<string>, id: NodeId, x: Node) returns (steps: seq<Step>)
    ensures OwnRun(db, handlers, id, x, steps) && Quiet(OwnEnd(db, handlers, id, x, steps))
  {
    var first := CompleteWork(db, handlers, id, x);
    var idle := OwnEnd(db, handlers, id, x, first);
    var second := StartUp(db, handlers, id, idle);
    OwnRunAppend(db, handlers, id, x, first, second);
    var a := first + second;
    var xa := OwnEnd(db, handlers, id, x, a);
    var b := GoLive(db, handlers, id, xa);
    var xb := OwnEnd(db, handlers, id, xa, b);
    var c := EmptyInbox(db, handlers, id, xb);
    var xc := OwnEnd(db, handlers, id, xb, c);
    var d := DrainAndComplete(db, handlers, id, xc);
    OwnRunAppend(db, handlers, id, xb, c, d);
    OwnRunAppend(db, handlers, id, xa, b, c + d);
    OwnRunAppend(db, handlers, id, x, a, b + (c + d));
    steps := a + (b + (c + d));
  }

  lemma {:induction false} OwnStepsAreLossless(db: Versions, handlers: set<string>, id: NodeId, x: Node,
                                               steps: seq<Step>)
    requires OwnRun(db, handlers, id, x, steps)
    ensures forall i :: 0 <= i < |steps| ==> Lossless(steps[i]) && steps[i].n == id
    decreases |steps|
  {
    if steps != [] {
      OwnStepsAreLossless(db, handlers, id, Acted(db, handlers, x, steps[0]), steps[1..]);
      forall i | 0 <= i < |steps| ensures Lossless(steps[i]) && steps[i].n == id {
        assert i > 0 ==> steps[i] == steps[1..][i - 1];
      }
    }
  }

  /** After every run that is lossless for a node, its own steps make it quiet, and then it agrees with the database. */
  lemma EveryNodeCanCatchUp(s: State, id: NodeId) returns (steps: seq<Step>)
    requires Ok(s) && id in s.nodes && NodeOnItsWay(s.db, id, s.nodes[id])
    ensures ValidRun(s, steps) && forall i :: 0 <= i < |steps| ==> steps[i].n == id
    ensures var t := Run(s, steps);
            t.db == s.db && id in t.nodes && Quiet(t.nodes[id]) && Agrees(t.db, t.nodes[id])
  {
    steps := BecomeQuiet(s.db, s.handlers, id, s.nodes[id]);
    OwnRunIsRun(s, id, steps);
    OwnStepsAreLossless(s.db, s.handlers, id, s.nodes[id], steps);
    LosslessRunsConverge(s, steps, id);
  }

  // ---------------------------------------------------------------------------
  // What one Resync repairs
  // ---------------------------------------------------------------------------

  /**
   Exactly which units one undisturbed Resync repairs: those it was told about
   and those whose applied version differs from the database, unless some unit
   without a handler makes it reload everything.
   */
  lemma OneResyncRepairs(db: Versions, handlers: set<string>, id: NodeId, x: Node) returns (steps: seq<Step>)
    requires NodeOk(db, x) && x.work.Drained? && x.work.resync
    ensures OwnRun(db, handlers, id, x, steps) && OwnEnd(db, handlers, id, x, steps).work == Idle
    ensures forall u :: Stale(db, x, u) ==>
              (!Stale(db, OwnEnd(db, handlers, id, x, steps), u) <==>
               u in x.work.batch || Differs(x.applied, db, u) || ReloadsAll(handlers, Queried(db, x, true)))
  {
    steps := CompleteRound(db, handlers, id, x);
    var y := Queried(db, x, true);
    forall u | Stale(db, x, u)
      ensures u in Planned(db, handlers, y).work.todo <==>
              u in x.work.batch || Differs(x.applied, db, u) || ReloadsAll(handlers, y)
    {
      NoteIsOlder(db, x, u);
      if x.applied.Some? {
        AbsorbingPassesOver(db, y, u);
      }
    }
    forall u | Stale(db, x, u) ensures u in db && VersionOf(x.loaded, u) != db[u] {
      NoteIsOlder(db, x, u);
    }
  }

  // ---------------------------------------------------------------------------
  // What an unsafe step costs
  // ---------------------------------------------------------------------------

  /** Out of date and not covered, also by a snapshot already taken. */
  predicate Missed(db: Versions, handlers: set<string>, id: NodeId, x: Node, u: Unit) {
    && Stale(db, x, u) && !Covered(db, handlers, id, x, u)
    && (x.work.Scanned? && x.work.current.Some? ==> !Differs(x.work.current, db, u))
  }

  predicate IsFullReload(handlers: set<string>, x: Node, step: Step) {
    step.Plan? && x.work.Scanned? && ReloadsAll(handlers, x)
  }

  /** No plan of the run reloads everything. */
  ghost predicate NoFullReload(db: Versions, handlers: set<string>, id: NodeId, x: Node, steps: seq<Step>)
    requires OwnRun(db, handlers, id, x, steps)
    decreases |steps|
  {
    steps == [] ||
    (!IsFullReload(handlers, x, steps[0])
     && NoFullReload(db, handlers, id, Acted(db, handlers, x, steps[0]), steps[1..]))
  }

  predicate HasUnhandled(handlers: set<string>, batch: set<Unit>) { exists w :: w in batch && w.domain !in handlers }

  lemma MissedAtPlan(db: Versions, handlers: set<string>, id: NodeId, x: Node, u: Unit)
    requires NodeOk(db, x) && x.work.Scanned? && Missed(db, handlers, id, x, u) && !ReloadsAll(handlers, x)
    ensures Missed(db, handlers, id, Planned(db, handlers, x), u)
  {
    NoteIsOlder(db, x, u);
    if x.applied.Some? && x.work.current.Some? {
      AbsorbingPassesOver(db, x, u);
    }
  }

  lemma MissedAtDeliver(db: Versions, handlers: set<string>, id: NodeId, x: Node, u: Unit)
    requires x.link == Live && x.inbox != [] && Missed(db, handlers, id, x, u)
    ensures Missed(db, handlers, id, Delivered(id, x), u)
  {
    InboxHeadAndTail(id, x.inbox, u);
    SameWork(db, handlers, x, Delivered(id, x), u);
  }

  lemma MissedAtQuery(db: Versions, handlers: set<string>, id: NodeId, x: Node, u: Unit)
    requires NodeOk(db, x) && x.work.Drained? && Missed(db, handlers, id, x, u) && !HasUnhandled(handlers, x.work.batch)
    ensures Missed(db, handlers, id, Queried(db, x, true), u)
  {
    NoteIsOlder(db, x, u);
  }

  lemma MissedAtOwnStep(db: Versions, handlers: set<string>, id: NodeId, x: Node, step: Step, u: Unit)
    requires NodeOk(db, x) && OwnStep(id, step) && EnabledAt(x, step) && !IsFullReload(handlers, x, step)
    requires Missed(db, handlers, id, x, u) && !(x.work.Drained? && HasUnhandled(handlers, x.work.batch))
    ensures Missed(db, handlers, id, Acted(db, handlers, x, step), u)
  {
    if step.Deliver? {
      MissedAtDeliver(db, handlers, id, x, u);
    } else if step.Query? {
      MissedAtQuery(db, handlers, id, x, u);
    } else if step.Plan? {
      MissedAtPlan(db, handlers, id, x, u);
    } else if step.Reload? {
      ReloadCovers(db, handlers, x, step, u);
    } else {
      NoteIsOlder(db, x, u);
    }
  }

  /** A unit that is up to date, or in the reload in progress, is up to date when the node is idle again. */
  lemma {:induction false} ReloadedInTheEnd(db: Versions, handlers: set<string>, id: NodeId, x: Node,
                                            steps: seq<Step>, u: Unit)
    requires OwnRun(db, handlers, id, x, steps) && OwnEnd(db, handlers, id, x, steps).work == Idle
    requires !Stale(db, x, u) || (x.work.Reloading? && u in x.work.todo && u in db)
    ensures !Stale(db, OwnEnd(db, handlers, id, x, steps), u)
    decreases |steps|
  {
    if steps != [] {
      ReloadedInTheEnd(db, handlers, id, Acted(db, handlers, x, steps[0]), steps[1..], u);
    }
  }

  /** A batch with a unit that has no handler ends in a reload of everything. */
  lemma {:induction false} UnhandledBatchReloadsAll(db: Versions, handlers: set<string>, id: NodeId, x: Node,
                                                    steps: seq<Step>, u: Unit)
    requires OwnRun(db, handlers, id, x, steps) && OwnEnd(db, handlers, id, x, steps).work == Idle
    requires (x.work.Drained? || x.work.Scanned?) && HasUnhandled(handlers, x.work.batch) && u in db
    ensures !NoFullReload(db, handlers, id, x, steps) && !Stale(db, OwnEnd(db, handlers, id, x, steps), u)
    decreases |steps|
  {
    var y := Acted(db, handlers, x, steps[0]);
    if steps[0].Plan? {
      var w :| w in x.work.batch && w.domain !in handlers;
      assert w in MergedUnits(x) && IsFullReload(handlers, x, steps[0]);
      ReloadedInTheEnd(db, handlers, id, y, steps[1..], u);
    } else {
      UnhandledBatchReloadsAll(db, handlers, id, y, steps[1..], u);
    }
  }

  /**
   The node's own faultless steps, Resyncs included, bring a missed change back
   if and only if one of their plans reloads everything.
   */
  lemma {:induction false} MissedUntilFullReload(db: Versions, handlers: set<string>, id: NodeId, x: Node,
                                                 steps: seq<Step>, u: Unit)
    requires NodeOk(db, x) && OwnRun(db, handlers, id, x, steps) && OwnEnd(db, handlers, id, x, steps).work == Idle
    requires Missed(db, handlers, id, x, u)
    ensures Stale(db, OwnEnd(db, handlers, id, x, steps), u) <==> NoFullReload(db, handlers, id, x, steps)
    decreases |steps|
  {
    if steps != [] {
      var y := Acted(db, handlers, x, steps[0]);
      ActedOk(db, handlers, x, steps[0]);
      NoteIsOlder(db, x, u);
      if x.work.Drained? && HasUnhandled(handlers, x.work.batch) {
        UnhandledBatchReloadsAll(db, handlers, id, x, steps, u);
      } else if IsFullReload(handlers, x, steps[0]) {
        ReloadedInTheEnd(db, handlers, id, y, steps[1..], u);
      } else {
        MissedAtOwnStep(db, handlers, id, x, steps[0], u);
        MissedUntilFullReload(db, handlers, id, y, steps[1..], u);
      }
    }
  }

  /** An unsafe step leaves some unit missed. */
  lemma UnsafeStepMisses(s: State, step: Step) returns (u: Unit)
    requires Ok(s) && AllCovered(s) && Enabled(s, step) && !Safe(s, step)
    ensures !step.Commit? && !step.Join?
            && Next(s, step).nodes[step.n] == Acted(s.db, s.handlers, s.nodes[step.n], step)
    ensures Missed(s.db, s.handlers, step.n, Next(s, step).nodes[step.n], u)
  {
    var x := s.nodes[step.n];
    var y := Acted(s.db, s.handlers, x, step);
    assert NodeOk(s.db, x) && NodeCovered(s.db, s.handlers, step.n, x);
    ActedCovers(s.db, s.handlers, x, step);
    u :| Stale(s.db, y, u) && !Covered(s.db, s.handlers, step.n, y, u);
    if step.Query? {
      NoteIsOlder(s.db, x, u);
    }
  }

  /**
   Every unsafe step can be followed, by the node's own steps alone and with
   nothing else going wrong, by a state in which the node is connected and quiet
   and still holds an old version, unless one of its plans reloads everything;
   when every unit it can hear of has a handler, none does.
   */
  lemma UnsafeStepStrands(s: State, step: Step) returns (u: Unit, steps: seq<Step>)
    requires Ok(s) && AllCovered(s) && Enabled(s, step) && !Safe(s, step)
    ensures ValidRun(Next(s, step), steps) && forall i :: 0 <= i < |steps| ==>
            Lossless(steps[i]) && steps[i].n == step.n
    ensures OwnRun(s.db, s.handlers, step.n, Next(s, step).nodes[step.n], steps)
    ensures var t := Run(Next(s, step), steps);
            && t.db == s.db && step.n in t.nodes && Quiet(t.nodes[step.n])
            && (Stale(t.db, t.nodes[step.n], u) <==>
                  NoFullReload(s.db, s.handlers, step.n, Next(s, step).nodes[step.n], steps))
            && (Handled(s.db, s.handlers, s.nodes[step.n]) ==> Stale(t.db, t.nodes[step.n], u))
  {
    u := UnsafeStepMisses(s, step);
    var t := Next(s, step);
    var id, y := step.n, t.nodes[step.n];
    StepKeepsOk(s, step);
    assert NodeOk(t.db, y);
    steps := BecomeQuiet(t.db, t.handlers, id, y);
    MissedUntilFullReload(t.db, t.handlers, id, y, steps, u);
    if Handled(s.db, s.handlers, s.nodes[id]) {
      HandledAtStep(s.db, s.handlers, s.nodes[id], step);
      HandledNeverReloadsAll(t.db, t.handlers, id, y, steps, u);
    }
    OwnStepsAreLossless(t.db, t.handlers, id, y, steps);
    OwnRunIsRun(t, id, steps);
  }

  /** Every unit the node can come to hear of has a handler. */
  ghost predicate Handled(db: Versions, handlers: set<string>, x: Node) {
    && (forall u :: u in db ==> u.domain in handlers)
    && (forall i :: 0 <= i < |x.inbox| && x.inbox[i].Announced? ==> x.inbox[i].unit.domain in handlers)
    && (forall u :: u in x.queue.pending ==> u.domain in handlers)
    && (x.work.Drained? ==> forall u :: u in x.work.batch ==> u.domain in handlers)
    && (x.work.Scanned? ==> forall u :: u in x.work.batch ==> u.domain in handlers)
  }

  lemma MergedHandled(db: Versions, handlers: set<string>, x: Node, u: Unit)
    requires NodeOk(db, x) && Handled(db, handlers, x) && x.work.Scanned? && u in MergedUnits(x)
    ensures u.domain in handlers
  {
    BaseIsBelow(db, x);
  }

  lemma HandledAtStep(db: Versions, handlers: set<string>, x: Node, step: Step)
    requires Handled(db, handlers, x) && EnabledAt(x, step) && !step.Commit? && !step.Join?
    ensures Handled(db, handlers, Acted(db, handlers, x, step))
  {
    if step.Deliver? {
      assert forall i :: 0 <= i < |x.inbox| - 1 ==> x.inbox[1..][i] == x.inbox[i + 1];
    }
  }

  /** With a handler for every unit, no plan reloads everything while a change is missed. */
  lemma {:induction false} HandledNeverReloadsAll(db: Versions, handlers: set<string>, id: NodeId, x: Node,
                                                  steps: seq<Step>, u: Unit)
    requires NodeOk(db, x) && Handled(db, handlers, x) && OwnRun(db, handlers, id, x, steps)
    requires Missed(db, handlers, id, x, u)
    ensures NoFullReload(db, handlers, id, x, steps)
    decreases |steps|
  {
    if steps != [] {
      if steps[0].Plan? {
        forall w | w in MergedUnits(x) ensures w.domain in handlers {
          MergedHandled(db, handlers, x, w);
        }
      }
      ActedOk(db, handlers, x, steps[0]);
      HandledAtStep(db, handlers, x, steps[0]);
      MissedAtOwnStep(db, handlers, id, x, steps[0], u);
      HandledNeverReloadsAll(db, handlers, id, Acted(db, handlers, x, steps[0]), steps[1..], u);
    }
  }
}
