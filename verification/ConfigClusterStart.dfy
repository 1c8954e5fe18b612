/**
 How a node starts: it loads the configuration, takes the baseline of its
 dispatcher, and subscribes to the bus. Commits may fall in between.
 */
module ConfigClusterStart {
  import opened Text
  import opened ConfigEvents
  import opened Dispatcher
  import opened ConfigCluster
  import opened ConfigClusterRepair
  import ConfigClusterFacts

  /**
   Exactly when a node that subscribes is covered: each unit committed since it
   loaded is still to be delivered, or a Resync is still to be handed over and
   the baseline does not have the unit yet. With a listener that has delivered
   everything, only when nothing was committed since it loaded.
   */
  lemma StartIsCoveredIff(db: Versions, handlers: set<string>, id: NodeId, x: Node)
    requires NodeOk(db, x) && x.stage == Based
    ensures var y := Acted(db, handlers, x, Subscribe(id));
            && (NodeCovered(db, handlers, id, y) <==>
                  forall u :: Stale(db, x, u) ==>
                    InInbox(id, x.inbox, u)
                    || ((x.link != Live || JoinInInbox(id, x.inbox)) && Differs(x.applied, db, u)))
            && (x.link == Live && x.inbox == [] ==>
                  Quiet(y) && (NodeCovered(db, handlers, id, y) <==> forall u :: !Stale(db, x, u)))
  {
    var y := Acted(db, handlers, x, Subscribe(id));
    assert forall u :: Stale(db, y, u) <==> Stale(db, x, u);
    assert forall u :: Covered(db, handlers, id, y, u) <==>
      InInbox(id, x.inbox, u) || ((x.link != Live || JoinInInbox(id, x.inbox)) && Differs(x.applied, db, u));
  }

  /** A unit committed after the load and no longer on the bus is lost once the baseline is taken. */
  lemma BaselineHidesEarlierCommits(db: Versions, handlers: set<string>, id: NodeId, x: Node, u: Unit)
    requires NodeOk(db, x) && x.stage == Loaded && Stale(db, x, u)
    ensures Lost(db, id, Acted(db, handlers, x, Baseline(id, true)), u) <==> !InInbox(id, x.inbox, u)
  {
    NoteIsOlder(db, x, u);
  }

  /** A failed baseline hides nothing: the next Resync reloads everything. */
  lemma FailedBaselineReloadsAll(db: Versions, handlers: set<string>, x: Node)
    requires x.work.Drained? && x.work.resync && x.applied.None?
    ensures ReloadsAll(handlers, Queried(db, x, true)) && ReloadsAll(handlers, Queried(db, x, false))
  {
  }

  // ---------------------------------------------------------------------------
  // The two gaps
  // ---------------------------------------------------------------------------

  /** `t` follows from `s` by a run in which no connection breaks and no handler fails. */
  ghost predicate Faultless(s: State, t: State) {
    exists steps :: ValidRun(s, steps) && (forall i :: 0 <= i < |steps| ==> Lossless(steps[i])) && Run(s, steps) == t
  }

  /** `t` is such a state, over `db`, in which node `id` is `x`. */
  ghost predicate At(s: State, t: State, db: Versions, id: NodeId, x: Node) {
    Faultless(s, t) && t.db == db && t.handlers == s.handlers && t.nodes.Keys == s.nodes.Keys
    && id in t.nodes && t.nodes[id] == x
  }

  lemma Begin(s: State, id: NodeId)
    requires id in s.nodes
    ensures At(s, s, s.db, id, s.nodes[id])
  {
    assert ValidRun(s, []) && Run(s, []) == s;
  }

  lemma OneMore(s: State, t: State, step: Step)
    requires Faultless(s, t) && Enabled(t, step) && Lossless(step)
    ensures Faultless(s, Next(t, step))
  {
    var steps :| ValidRun(s, steps) && (forall i :: 0 <= i < |steps| ==> Lossless(steps[i])) && Run(s, steps) == t;
    ConfigClusterFacts.RunAppend(s, steps, step);
  }

  lemma Acts(s: State, t: State, db: Versions, id: NodeId, x: Node, step: Step, y: Node) returns (t': State)
    requires At(s, t, db, id, x) && step.n == id && EnabledAt(x, step) && Lossless(step) && !step.Commit? && !step.Join?
    requires y == Acted(db, s.handlers, x, step)
    ensures At(s, t', db, id, y)
  {
    t' := Next(t, step);
    OneMore(s, t, step);
  }

  lemma PeerCommits(s: State, t: State, db: Versions, id: NodeId, x: Node, w: NodeId, u: Unit) returns (t': State)
    requires At(s, t, db, id, x) && w in t.nodes && w != id && x.link == Live
    ensures At(s, t', db[u := VersionOf(db, u) + 1], id, x.(inbox := x.inbox + [Announced(w, u, VersionOf(db, u) + 1)]))
  {
    t' := Next(t, Commit(w, u));
    OneMore(s, t, Commit(w, u));
  }

  /** A commit announced to a node without a subscriber leaves no trace there. */
  lemma CommitPassesBy(s: State, t: State, db: Versions, id: NodeId, x: Node, w: NodeId, u: Unit) returns (t': State)
    requires At(s, t, db, id, x) && w in t.nodes && w != id && x.link == Live && x.inbox == [] && x.stage != Serving
    ensures At(s, t', db[u := VersionOf(db, u) + 1], id, x)
  {
    var y := x.(inbox := x.inbox + [Announced(w, u, VersionOf(db, u) + 1)]);
    t' := PeerCommits(s, t, db, id, x, w, u);
    DroppedUnread(db, s.handlers, id, x, y, Announced(w, u, VersionOf(db, u) + 1));
    t' := Acts(s, t', db[u := VersionOf(db, u) + 1], id, y, Deliver(id), x);
  }

  lemma DroppedUnread(db: Versions, handlers: set<string>, id: NodeId, x: Node, y: Node, m: Msg)
    requires x.inbox == [] && x.link == Live && x.stage != Serving && y == x.(inbox := x.inbox + [m])
    ensures EnabledAt(y, Deliver(id)) && Delivered(id, y) == x
  {
    assert y.inbox[1..] == x.inbox;
  }

  lemma Loads(s: State, t: State, db: Versions, id: NodeId, x: Node) returns (t': State)
    requires At(s, t, db, id, x) && x.stage == Unloaded
    ensures At(s, t', db, id, x.(stage := Loaded, loaded := db))
  {
    t' := Acts(s, t, db, id, x, Load(id), x.(stage := Loaded, loaded := db));
  }

  lemma TakesBaseline(s: State, t: State, db: Versions, id: NodeId, x: Node) returns (t': State)
    requires At(s, t, db, id, x) && x.stage == Loaded
    ensures At(s, t', db, id, x.(stage := Based, applied := Some(db)))
  {
    t' := Acts(s, t, db, id, x, Baseline(id, true), x.(stage := Based, applied := Some(db)));
  }

  lemma Subscribes(s: State, t: State, db: Versions, id: NodeId, x: Node) returns (t': State)
    requires At(s, t, db, id, x) && x.stage == Based
    ensures At(s, t', db, id, x.(stage := Serving))
  {
    t' := Acts(s, t, db, id, x, Subscribe(id), x.(stage := Serving));
  }

  /** A node about to load, connected, with nothing on the bus for it. */
  predicate AboutToLoad(s: State, id: NodeId) {
    id in s.nodes && s.nodes[id].stage == Unloaded && s.nodes[id].link == Live && s.nodes[id].inbox == []
  }

  /** The starting node, once it serves, with what it loaded and what it took as its baseline. */
  function Started(x: Node, loaded: Versions, base: Versions): Node {
    x.(stage := Serving, loaded := loaded, applied := Some(base))
  }

  lemma LoadGapRun(s: State, id: NodeId, w: NodeId, u: Unit) returns (t: State)
    requires AboutToLoad(s, id) && w in s.nodes && w != id
    ensures var db := s.db[u := VersionOf(s.db, u) + 1]; At(s, t, db, id, Started(s.nodes[id], s.db, db))
  {
    var x, db := s.nodes[id], s.db[u := VersionOf(s.db, u) + 1];
    Begin(s, id);
    t := Loads(s, s, s.db, id, x);
    t := CommitPassesBy(s, t, s.db, id, x.(stage := Loaded, loaded := s.db), w, u);
    t := TakesBaseline(s, t, db, id, x.(stage := Loaded, loaded := s.db));
    t := Subscribes(s, t, db, id, x.(stage := Based, loaded := s.db, applied := Some(db)));
  }

  lemma SubscribeGapRun(s: State, id: NodeId, w: NodeId, u: Unit) returns (t: State)
    requires AboutToLoad(s, id) && w in s.nodes && w != id
    ensures var db := s.db[u := VersionOf(s.db, u) + 1]; At(s, t, db, id, Started(s.nodes[id], s.db, s.db))
  {
    var x, db := s.nodes[id], s.db[u := VersionOf(s.db, u) + 1];
    Begin(s, id);
    t := Loads(s, s, s.db, id, x);
    t := TakesBaseline(s, t, s.db, id, x.(stage := Loaded, loaded := s.db));
    t := CommitPassesBy(s, t, s.db, id, x.(stage := Based, loaded := s.db, applied := Some(s.db)), w, u);
    t := Subscribes(s, t, db, id, x.(stage := Based, loaded := s.db, applied := Some(s.db)));
  }

  /** A node that started during a commit of `u`: quiet, and out of date in one of two ways. */
  lemma StartedDuringCommit(db: Versions, handlers: set<string>, id: NodeId, x: Node, u: Unit)
    requires NodeOk(db, x) && x.stage == Unloaded && x.link == Live && x.inbox == []
    ensures var db' := db[u := VersionOf(db, u) + 1];
            && Quiet(Started(x, db, db')) && Lost(db', id, Started(x, db, db'), u)
            && Quiet(Started(x, db, db)) && Missed(db', handlers, id, Started(x, db, db), u)
            && Differs(Started(x, db, db).applied, db', u)
  {
  }

  /**
   The gap between load and baseline: from every such state, over a lossless bus
   and with nothing failing, a commit there can leave the node connected, quiet
   and out of date, past repair by any Resync.
   */
  lemma CommitBeforeBaselineIsLost(s: State, id: NodeId, w: NodeId, u: Unit) returns (t: State)
    requires Ok(s) && AboutToLoad(s, id) && w in s.nodes && w != id
    ensures Faultless(s, t) && id in t.nodes && Quiet(t.nodes[id]) && Lost(t.db, id, t.nodes[id], u)
  {
    t := LoadGapRun(s, id, w, u);
    StartedDuringCommit(s.db, s.handlers, id, s.nodes[id], u);
  }

  /**
   The gap between baseline and subscription: a commit there can reach no
   subscriber and leave the node connected, quiet and out of date, until some
   later Resync finds it.
   */
  lemma CommitBeforeSubscribeIsMissed(s: State, id: NodeId, w: NodeId, u: Unit) returns (t: State)
    requires Ok(s) && AboutToLoad(s, id) && w in s.nodes && w != id
    ensures Faultless(s, t) && id in t.nodes && Quiet(t.nodes[id]) && Missed(t.db, t.handlers, id, t.nodes[id], u)
    ensures Differs(t.nodes[id].applied, t.db, u)
  {
    t := SubscribeGapRun(s, id, w, u);
    StartedDuringCommit(s.db, s.handlers, id, s.nodes[id], u);
  }
}
