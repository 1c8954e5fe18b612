/**
 Configuration sync across a cluster as a transition system: writers commit
 versions and announce them on the bus, every node delivers, coalesces and
 reloads. One step is one transaction commit, one critical section of a
 dispatcher or of the note table, one fingerprint snapshot, or the reload of
 one unit.
 */
module ConfigCluster {
  import opened Text
  import opened ConfigEvents
  import opened Dispatcher

  type NodeId = string
  type Versions = map<Unit, nat>

  function VersionOf(m: Versions, u: Unit): nat { if u in m then m[u] else 0 }

  /** A notification; it carries the publisher's node ID. */
  datatype Msg = Announced(origin: NodeId, unit: Unit, version: nat) | Joined(origin: NodeId)

  /** The bus listener: cut off, listening with its Resync still to be handed over, or delivering. */
  datatype Link = Down | Connected | Live

  datatype Work =
    | Idle
    | Drained(batch: set<Unit>, resync: bool)
    | Scanned(batch: set<Unit>, resync: bool, current: Option<Versions>)
    | Reloading(todo: set<Unit>, after: Option<Versions>)

  datatype Write = Write(unit: Unit, version: nat)

  /**
   How far a node has started: configuration not loaded yet, loaded, with its
   baseline taken, and subscribed with its worker running.
   */
  datatype Stage = Unloaded | Loaded | Based | Serving

  /**
   `loaded` is what the node's caches hold, `applied` what its dispatcher
   believes they hold, `notes` its own writes not yet counted as applied and
   `unnoted` its own commits whose note is still to be recorded.
   */
  datatype Node = Node(stage: Stage, loaded: Versions, link: Link, inbox: seq<Msg>, queue: Queue, work: Work,
                       applied: Option<Versions>, notes: Versions, unnoted: set<Write>)

  datatype State = State(db: Versions, handlers: set<string>, nodes: map<NodeId, Node>)

  datatype Step =
    | Commit(n: NodeId, u: Unit)
    | Note(n: NodeId, u: Unit, v: nat)
    | Join(n: NodeId)
    | Deliver(n: NodeId)
    | Drain(n: NodeId)
    | Query(n: NodeId, ok: bool)
    | Plan(n: NodeId)
    | Reload(n: NodeId, u: Unit, ok: bool)
    | Finish(n: NodeId)
    | Disconnect(n: NodeId)
    | Connect(n: NodeId)
    | HandResync(n: NodeId)
    | Load(n: NodeId)
    | Baseline(n: NodeId, ok: bool)
    | Subscribe(n: NodeId)

  // ---------------------------------------------------------------------------
  // Steps of one node
  // ---------------------------------------------------------------------------

  /** A notification reaches every listening session. */
  function Notified(x: Node, m: Msg): Node {
    if x.link == Down then x else x.(inbox := x.inbox + [m])
  }

  /** A committed write: the writer's caches follow with the commit. */
  function Committed(id: NodeId, x: Node, n: NodeId, u: Unit, v: nat): Node {
    var y := Notified(x, Announced(n, u, v));
    if id == n then y.(loaded := y.loaded[u := v], unnoted := y.unnoted + {Write(u, v)}) else y
  }

  /** The oldest notification is handed to the subscriber, if there is one yet; a node drops its own. */
  function Delivered(id: NodeId, x: Node): Node
    requires x.inbox != []
  {
    var y := x.(inbox := x.inbox[1..]);
    match x.inbox[0]
    case Announced(origin, u, v) =>
      if origin == id || x.stage != Serving then y
      else y.(queue := Recorded(x.queue, Announce(u, ConfigEvent(u.domain, u.tenant, u.key, v))))
    case Joined(origin) =>
      if origin == id || x.stage != Serving then y else y.(queue := Recorded(x.queue, AskResync))
  }

  function AbsorbedVersions(applied: Versions, notes: Versions, current: Option<Versions>): Versions {
    applied + (map u | u in notes && (current.None? || VersionOf(current.value, u) == notes[u]) :: notes[u])
  }

  function ChangedVersions(current: Versions, base: Versions): set<Unit> {
    set u | u in current.Keys + base.Keys && !(u in current && u in base && current[u] == base[u])
  }

  /** The fingerprints are read, or cannot be. */
  function Queried(db: Versions, x: Node, ok: bool): Node
    requires x.work.Drained?
  {
    x.(work := Scanned(x.work.batch, x.work.resync, if ok then Some(db) else None))
  }

  /** What the node counts as applied once it has absorbed its notes. */
  function Base(x: Node): Option<Versions>
    requires x.work.Scanned?
  {
    if x.applied.None? then None else Some(AbsorbedVersions(x.applied.value, x.notes, x.work.current))
  }

  /** A resync that cannot tell what changed. */
  predicate NothingKnown(x: Node)
    requires x.work.Scanned?
  {
    x.work.resync && (x.work.current.None? || x.applied.None?)
  }

  /** The batch, extended on a resync by what changed. */
  function MergedUnits(x: Node): set<Unit>
    requires x.work.Scanned?
  {
    if x.work.resync && x.work.current.Some? && x.applied.Some?
    then x.work.batch + ChangedVersions(x.work.current.value, Base(x).value) else x.work.batch
  }

  predicate ReloadsAll(handlers: set<string>, x: Node)
    requires x.work.Scanned?
  {
    NothingKnown(x) || exists u :: u in MergedUnits(x) && u.domain !in handlers
  }

  /** What will count as applied after the reload. */
  function Outcome(x: Node): Option<Versions>
    requires x.work.Scanned?
  {
    if NothingKnown(x) || x.work.current.Some? then x.work.current else Base(x)
  }

  /** The note absorption and the choice of what to reload. */
  function Planned(db: Versions, handlers: set<string>, x: Node): Node
    requires x.work.Scanned?
  {
    x.(notes := map[], applied := Base(x),
       work := Reloading(if ReloadsAll(handlers, x) then db.Keys else MergedUnits(x), Outcome(x)))
  }

  /** One unit is read from the database; a failed handler leaves it as it was. */
  function Reloaded(db: Versions, x: Node, u: Unit, ok: bool): Node
    requires x.work.Reloading?
  {
    var y := x.(work := x.work.(todo := x.work.todo - {u}));
    if ok && u in db then y.(loaded := y.loaded[u := db[u]]) else y
  }

  predicate EnabledAt(x: Node, step: Step) {
    match step
    case Commit(_, _) => true
    case Note(_, u, v) => Write(u, v) in x.unnoted
    case Join(_) => true
    case Deliver(_) => x.link == Live && x.inbox != []
    case Drain(_) => x.work.Idle? && x.stage == Serving
    case Query(_, _) => x.work.Drained?
    case Plan(_) => x.work.Scanned?
    case Reload(_, u, _) => x.work.Reloading? && u in x.work.todo
    case Finish(_) => x.work.Reloading? && x.work.todo == {}
    case Disconnect(_) => x.link != Down
    case Connect(_) => x.link == Down
    case HandResync(_) => x.link == Connected
    case Load(_) => x.stage == Unloaded
    case Baseline(_, _) => x.stage == Loaded
    case Subscribe(_) => x.stage == Based
  }

  /** A step of the acting node that changes no other node and not the database. */
  function Acted(db: Versions, handlers: set<string>, x: Node, step: Step): Node
    requires EnabledAt(x, step)
  {
    match step
    case Note(_, u, v) => x.(notes := x.notes[u := v], unnoted := x.unnoted - {Write(u, v)})
    case Deliver(n) => Delivered(n, x)
    case Drain(_) => x.(work := Drained(x.queue.pending.Keys, x.queue.resync), queue := EMPTY)
    case Query(_, ok) => Queried(db, x, ok)
    case Plan(_) => Planned(db, handlers, x)
    case Reload(_, u, ok) => Reloaded(db, x, u, ok)
    case Finish(_) => x.(work := Idle, applied := x.work.after)
    case Disconnect(_) => x.(link := Down, inbox := [])
    case Connect(_) => x.(link := Connected)
    case HandResync(_) =>
      x.(link := Live, queue := if x.stage == Serving then Recorded(x.queue, AskResync) else x.queue)
    case Load(_) => x.(stage := Loaded, loaded := db)
    case Baseline(_, ok) => x.(stage := Based, applied := if ok then Some(db) else None)
    case Subscribe(_) => x.(stage := Serving)
    case _ => x
  }

  predicate Enabled(s: State, step: Step) {
    step.n in s.nodes && EnabledAt(s.nodes[step.n], step)
  }

  /** The new state of node `id`. */
  function NextNode(s: State, step: Step, id: NodeId): Node
    requires Enabled(s, step) && id in s.nodes
  {
    if step.Commit? then Committed(id, s.nodes[id], step.n, step.u, VersionOf(s.db, step.u) + 1)
    else if step.Join? then Notified(s.nodes[id], Joined(step.n))
    else if id == step.n then Acted(s.db, s.handlers, s.nodes[id], step)
    else s.nodes[id]
  }

  function NextDb(s: State, step: Step): Versions {
    if step.Commit? then s.db[step.u := VersionOf(s.db, step.u) + 1] else s.db
  }

  function Next(s: State, step: Step): State
    requires Enabled(s, step)
  {
    State(NextDb(s, step), s.handlers, map id | id in s.nodes :: NextNode(s, step, id))
  }

  // ---------------------------------------------------------------------------
  // What every run keeps
  // ---------------------------------------------------------------------------

  predicate Below(m: Versions, db: Versions) {
    forall u :: u in m ==> u in db && m[u] <= db[u]
  }

  predicate BelowIfAny(m: Option<Versions>, db: Versions) { m.Some? ==> Below(m.value, db) }

  /** What the dispatcher will believe once the work in progress ends. */
  function Believed(x: Node): Option<Versions> {
    match x.work
    case Scanned(_, _, _) => Outcome(x)
    case Reloading(_, after) => after
    case _ => x.applied
  }

  ghost predicate NodeOk(db: Versions, x: Node) {
    && Below(x.loaded, db)
    && BelowIfAny(x.applied, db)
    && (x.work.Scanned? ==> BelowIfAny(x.work.current, db))
    && (x.work.Reloading? ==> BelowIfAny(x.work.after, db))
    && (forall u :: u in x.notes ==> 0 < x.notes[u] <= VersionOf(x.loaded, u))
    && (forall w :: w in x.unnoted ==> 0 < w.version <= VersionOf(x.loaded, w.unit))
    && (x.link == Down ==> x.inbox == [])
    && (x.stage != Serving ==> x.work == Idle && x.queue == EMPTY)
    && (x.stage == Unloaded || x.stage == Loaded ==> x.applied.None?)
  }

  ghost predicate Ok(s: State) {
    && (forall u :: u in s.db ==> 0 < s.db[u])
    && (forall id :: id in s.nodes ==> NodeOk(s.db, s.nodes[id]))
  }

  predicate Stale(db: Versions, x: Node, u: Unit) { VersionOf(x.loaded, u) != VersionOf(db, u) }

  predicate InInbox(id: NodeId, inbox: seq<Msg>, u: Unit) {
    exists i :: 0 <= i < |inbox| && inbox[i].Announced? && inbox[i].origin != id && inbox[i].unit == u
  }

  /** Another node's start is still to be delivered, which asks for a Resync. */
  predicate JoinInInbox(id: NodeId, inbox: seq<Msg>) {
    exists i :: 0 <= i < |inbox| && inbox[i].Joined? && inbox[i].origin != id
  }

  predicate InWork(x: Node, u: Unit) {
    match x.work
    case Idle => false
    case Drained(batch, _) => u in batch
    case Scanned(batch, _, _) => u in batch
    case Reloading(todo, _) => u in todo
  }

  /** The unit's announcement is on its way: on the bus, queued, or being reloaded. */
  predicate OnItsWay(id: NodeId, x: Node, u: Unit) {
    InInbox(id, x.inbox, u) || u in x.queue.pending || InWork(x, u)
  }

  /** A Resync is still to be compared with the database. */
  predicate ResyncOwed(id: NodeId, x: Node) {
    x.link != Live || x.queue.resync || (x.work.Drained? && x.work.resync) || JoinInInbox(id, x.inbox)
  }

  /** A comparison with the database would find the unit changed. */
  predicate Differs(applied: Option<Versions>, db: Versions, u: Unit) {
    applied.None? || u !in applied.value || applied.value[u] != VersionOf(db, u)
  }

  /**
   The comparison in progress will reload the unit: everything is reloaded, or
   the unit has not changed since the snapshot and differs from what was applied.
   */
  predicate WillReload(db: Versions, handlers: set<string>, x: Node, u: Unit) {
    x.work.Scanned? &&
    (|| NothingKnown(x)
     || (exists w :: w in x.work.batch && w.domain !in handlers)
     || (x.work.resync && !Differs(x.work.current, db, u) && Differs(x.applied, db, u)))
  }

  predicate Covered(db: Versions, handlers: set<string>, id: NodeId, x: Node, u: Unit) {
    || x.stage == Unloaded
    || OnItsWay(id, x, u)
    || WillReload(db, handlers, x, u)
    || (ResyncOwed(id, x) && Differs(Believed(x), db, u))
  }

  ghost predicate NodeCovered(db: Versions, handlers: set<string>, id: NodeId, x: Node) {
    forall u :: Stale(db, x, u) ==> Covered(db, handlers, id, x, u)
  }

  /** Every unit some node holds at an old version is announced to it or will be found by a Resync. */
  ghost predicate AllCovered(s: State) {
    forall id :: id in s.nodes ==> NodeCovered(s.db, s.handlers, id, s.nodes[id])
  }

  /** What is left in the inbox covers every stale unit of a node that has not subscribed yet. */
  ghost predicate StillCovered(db: Versions, id: NodeId, x: Node, rest: seq<Msg>) {
    forall u :: Stale(db, x, u) ==> InInbox(id, rest, u) || (JoinInInbox(id, rest) && Differs(x.applied, db, u))
  }

  /**
   The steps that can lose a change, and when they do not:
   - an ordinary batch takes its snapshot while no announcement is missing: each
     stale unit is on the bus, queued or in the batch, or everything is reloaded;
   - a connection breaks while each announcement lost with it names a unit the
     next comparison still finds changed, or one that is queued as well;
   - a handler fails for a unit that is up to date or covered otherwise;
   - a starting node takes its baseline while each unit committed since it loaded
     is still on the bus;
   - a notification or a Resync reaches a node that has not subscribed yet, and
     each stale unit is still covered by what comes after it.
   */
  ghost predicate SafeAt(db: Versions, handlers: set<string>, x: Node, step: Step)
    requires EnabledAt(x, step)
  {
    match step
    case Query(n, ok) =>
      ok && !x.work.resync ==>
        forall u :: Stale(db, x, u) ==> OnItsWay(n, x, u) || exists w :: w in x.work.batch && w.domain !in handlers
    case Disconnect(_) =>
      x.stage == Unloaded || forall u :: Stale(db, x, u) ==>
        u in x.queue.pending || InWork(x, u) || WillReload(db, handlers, x, u) || Differs(Believed(x), db, u)
    case Reload(n, u, ok) =>
      !ok && Stale(db, x, u) ==>
        InInbox(n, x.inbox, u) || u in x.queue.pending || (ResyncOwed(n, x) && Differs(Believed(x), db, u))
    case Baseline(n, ok) =>
      ok ==> forall u :: Stale(db, x, u) ==> InInbox(n, x.inbox, u)
    case Deliver(n) =>
      x.stage == Serving || x.stage == Unloaded || StillCovered(db, n, x, x.inbox[1..])
    case HandResync(n) =>
      x.stage == Serving || x.stage == Unloaded || StillCovered(db, n, x, x.inbox)
    case _ => true
  }

  ghost predicate Safe(s: State, step: Step)
    requires Enabled(s, step)
  {
    SafeAt(s.db, s.handlers, s.nodes[step.n], step)
  }

  // ---------------------------------------------------------------------------
  // Bounds
  // ---------------------------------------------------------------------------

  lemma BelowLater(m: Option<Versions>, db: Versions, u: Unit)
    requires BelowIfAny(m, db)
    ensures BelowIfAny(m, db[u := VersionOf(db, u) + 1])
  {
  }

  lemma BaseIsBelow(db: Versions, x: Node)
    requires NodeOk(db, x) && x.work.Scanned?
    ensures BelowIfAny(Base(x), db) && BelowIfAny(Outcome(x), db)
  {
    if x.applied.Some? {
      var a := Base(x).value;
      forall u | u in a ensures u in db && a[u] <= db[u] {
        assert u in x.notes ==> x.notes[u] <= VersionOf(x.loaded, u);
      }
    }
  }

  lemma ReloadKeepsOk(db: Versions, x: Node, u: Unit, ok: bool)
    requires NodeOk(db, x) && x.work.Reloading?
    ensures NodeOk(db, Reloaded(db, x, u, ok))
  {
  }

  lemma DeliverKeepsOk(db: Versions, id: NodeId, x: Node)
    requires NodeOk(db, x) && x.link == Live && x.inbox != []
    ensures NodeOk(db, Delivered(id, x))
  {
  }

  lemma ActedOk(db: Versions, handlers: set<string>, x: Node, step: Step)
    requires NodeOk(db, x) && EnabledAt(x, step)
    ensures NodeOk(db, Acted(db, handlers, x, step))
  {
    if step.Plan? {
      BaseIsBelow(db, x);
    } else if step.Reload? {
      ReloadKeepsOk(db, x, step.u, step.ok);
    } else if step.Deliver? {
      DeliverKeepsOk(db, step.n, x);
    }
  }

  lemma NotifiedOk(db: Versions, x: Node, m: Msg)
    requires NodeOk(db, x)
    ensures NodeOk(db, Notified(x, m))
  {
  }

  /** Another version in the database leaves every bound intact. */
  lemma LaterOk(db: Versions, x: Node, u: Unit)
    requires NodeOk(db, x)
    ensures NodeOk(db[u := VersionOf(db, u) + 1], x)
  {
    BelowLater(Some(x.loaded), db, u);
    BelowLater(x.applied, db, u);
    if x.work.Scanned? { BelowLater(x.work.current, db, u); }
    if x.work.Reloading? { BelowLater(x.work.after, db, u); }
  }

  /** The writer's own caches follow. */
  lemma WriterOk(db: Versions, y: Node, u: Unit)
    requires NodeOk(db, y) && u in db && VersionOf(y.loaded, u) <= db[u] && 0 < db[u]
    ensures NodeOk(db, y.(loaded := y.loaded[u := db[u]], unnoted := y.unnoted + {Write(u, db[u])}))
  {
  }

  lemma CommittedOk(db: Versions, id: NodeId, x: Node, n: NodeId, u: Unit)
    requires NodeOk(db, x)
    ensures NodeOk(db[u := VersionOf(db, u) + 1], Committed(id, x, n, u, VersionOf(db, u) + 1))
  {
    var later, m := db[u := VersionOf(db, u) + 1], Announced(n, u, VersionOf(db, u) + 1);
    LaterOk(db, x, u);
    NotifiedOk(later, x, m);
    if id == n {
      WriterOk(later, Notified(x, m), u);
    }
  }

  /** A node other than the acting one only changes by a notification. */
  lemma BystanderOk(s: State, step: Step, id: NodeId)
    requires Ok(s) && Enabled(s, step) && id in s.nodes && id != step.n && !step.Commit? && !step.Join?
    ensures NodeOk(NextDb(s, step), NextNode(s, step, id))
  {
    assert NextNode(s, step, id) == s.nodes[id];
  }

  lemma NextNodeOk(s: State, step: Step, id: NodeId)
    requires Ok(s) && Enabled(s, step) && id in s.nodes
    ensures NodeOk(NextDb(s, step), NextNode(s, step, id))
  {
    var x := s.nodes[id];
    assert NodeOk(s.db, x);
    if step.Commit? {
      CommittedOk(s.db, id, x, step.n, step.u);
    } else if step.Join? {
      NotifiedOk(s.db, x, Joined(step.n));
    } else if id == step.n {
      ActedOk(s.db, s.handlers, x, step);
    } else {
      BystanderOk(s, step, id);
    }
  }

  /** Bounds survive every step. */
  lemma StepKeepsOk(s: State, step: Step)
    requires Ok(s) && Enabled(s, step)
    ensures Ok(Next(s, step))
  {
    forall id | id in s.nodes ensures NodeOk(NextDb(s, step), NextNode(s, step, id)) {
      NextNodeOk(s, step, id);
    }
  }

  // ---------------------------------------------------------------------------
  // One step
  // ---------------------------------------------------------------------------

  /** A note of a unit that is out of date is older than the database. */
  lemma NoteIsOlder(db: Versions, x: Node, u: Unit)
    requires NodeOk(db, x) && Stale(db, x, u)
    ensures u in db && VersionOf(x.loaded, u) < db[u]
    ensures u in x.notes ==> x.notes[u] < db[u]
  {
  }

  /** A note never makes the comparison miss a unit that is out of date. */
  lemma AbsorbingHidesNothing(db: Versions, x: Node, current: Option<Versions>, u: Unit)
    requires NodeOk(db, x) && Stale(db, x, u) && x.applied.Some?
    requires current.Some? ==> !Differs(current, db, u)
    requires Differs(x.applied, db, u)
    ensures Differs(Some(AbsorbedVersions(x.applied.value, x.notes, current)), db, u)
  {
    NoteIsOlder(db, x, u);
  }

  /** With a snapshot in which the unit is current, absorbing leaves it as it was. */
  lemma AbsorbingPassesOver(db: Versions, x: Node, u: Unit)
    requires NodeOk(db, x) && Stale(db, x, u) && x.work.Scanned? && x.applied.Some? && x.work.current.Some?
    requires !Differs(x.work.current, db, u)
    ensures u in Base(x).value <==> u in x.applied.value
    ensures u in x.applied.value ==> Base(x).value[u] == x.applied.value[u]
  {
    NoteIsOlder(db, x, u);
  }

  lemma QueryCovers(db: Versions, handlers: set<string>, id: NodeId, x: Node, ok: bool, u: Unit)
    requires NodeOk(db, x) && x.work.Drained? && Stale(db, x, u)
    requires Covered(db, handlers, id, x, u)
    ensures Covered(db, handlers, id, Queried(db, x, ok), u) <==>
            (ok && !x.work.resync ==>
               OnItsWay(id, x, u) || exists w :: w in x.work.batch && w.domain !in handlers)
  {
    NoteIsOlder(db, x, u);
    if !ok && x.applied.Some? && Differs(x.applied, db, u) {
      AbsorbingHidesNothing(db, x, None, u);
    }
  }

  lemma PlanCovers(db: Versions, handlers: set<string>, id: NodeId, x: Node, u: Unit)
    requires NodeOk(db, x) && x.work.Scanned? && Stale(db, x, u)
    ensures OnItsWay(id, x, u) ==> OnItsWay(id, Planned(db, handlers, x), u)
    ensures Covered(db, handlers, id, x, u) ==> Covered(db, handlers, id, Planned(db, handlers, x), u)
  {
    NoteIsOlder(db, x, u);
    if WillReload(db, handlers, x, u) && !ReloadsAll(handlers, x) {
      AbsorbingPassesOver(db, x, u);
    }
  }

  lemma NoteCovers(db: Versions, handlers: set<string>, x: Node, step: Step, u: Unit)
    requires NodeOk(db, x) && step.Note? && EnabledAt(x, step) && Stale(db, x, u)
    requires Covered(db, handlers, step.n, x, u)
    ensures Covered(db, handlers, step.n, Acted(db, handlers, x, step), u)
  {
    NoteIsOlder(db, x, u);
    var y := Acted(db, handlers, x, step);
    ActedOk(db, handlers, x, step);
    NoteIsOlder(db, y, u);
  }

  /** What an inbox announces: its oldest notification and the rest. */
  lemma InboxHeadAndTail(id: NodeId, inbox: seq<Msg>, u: Unit)
    requires inbox != []
    ensures var m, rest := inbox[0], inbox[1..];
            && (InInbox(id, inbox, u) <==> (m.Announced? && m.origin != id && m.unit == u) || InInbox(id, rest, u))
            && (JoinInInbox(id, inbox) <==> (m.Joined? && m.origin != id) || JoinInInbox(id, rest))
  {
    var rest := inbox[1..];
    if InInbox(id, rest, u) {
      var i :| 0 <= i < |rest| && rest[i].Announced? && rest[i].origin != id && rest[i].unit == u;
      assert inbox[i + 1] == rest[i];
    }
    if JoinInInbox(id, rest) {
      var i :| 0 <= i < |rest| && rest[i].Joined? && rest[i].origin != id;
      assert inbox[i + 1] == rest[i];
    }
    if InInbox(id, inbox, u) {
      var i :| 0 <= i < |inbox| && inbox[i].Announced? && inbox[i].origin != id && inbox[i].unit == u;
      assert i > 0 ==> rest[i - 1] == inbox[i];
    }
    if JoinInInbox(id, inbox) {
      var i :| 0 <= i < |inbox| && inbox[i].Joined? && inbox[i].origin != id;
      assert i > 0 ==> rest[i - 1] == inbox[i];
    }
  }

  /** A delivered notification is queued: what was on its way or owed still is. */
  lemma DeliverMoves(id: NodeId, x: Node, u: Unit)
    requires x.inbox != [] && x.link == Live && x.stage == Serving
    ensures OnItsWay(id, x, u) <==> OnItsWay(id, Delivered(id, x), u)
    ensures ResyncOwed(id, x) <==> ResyncOwed(id, Delivered(id, x))
  {
    InboxHeadAndTail(id, x.inbox, u);
    assert InWork(Delivered(id, x), u) == InWork(x, u);
  }

  lemma SameWork(db: Versions, handlers: set<string>, x: Node, y: Node, u: Unit)
    requires x.work == y.work && x.applied == y.applied && x.notes == y.notes
    ensures Believed(x) == Believed(y) && (WillReload(db, handlers, x, u) <==> WillReload(db, handlers, y, u))
  {
  }

  lemma DeliverCovers(db: Versions, handlers: set<string>, id: NodeId, x: Node, u: Unit)
    requires x.inbox != [] && x.link == Live && x.stage == Serving
    ensures Covered(db, handlers, id, x, u) <==> Covered(db, handlers, id, Delivered(id, x), u)
    ensures OnItsWay(id, x, u) <==> OnItsWay(id, Delivered(id, x), u)
    ensures ResyncOwed(id, x) <==> ResyncOwed(id, Delivered(id, x))
  {
    DeliverMoves(id, x, u);
    SameWork(db, handlers, x, Delivered(id, x), u);
  }

  lemma NotifyCovers(db: Versions, handlers: set<string>, id: NodeId, x: Node, m: Msg, u: Unit)
    ensures Covered(db, handlers, id, x, u) ==> Covered(db, handlers, id, Notified(x, m), u)
    ensures OnItsWay(id, x, u) ==> OnItsWay(id, Notified(x, m), u)
    ensures x.link != Down && m.Announced? && m.origin != id && m.unit == u ==> OnItsWay(id, Notified(x, m), u)
    ensures !(m.Announced? && m.unit == u) ==> (OnItsWay(id, Notified(x, m), u) ==> OnItsWay(id, x, u))
  {
    var y := Notified(x, m);
    assert forall i :: 0 <= i < |x.inbox| ==> y.inbox[i] == x.inbox[i];
    if x.link != Down {
      assert y.inbox[|x.inbox|] == m;
    }
  }

  /** A commit is announced to every other node that listens. */
  lemma CommitAnnounces(db: Versions, id: NodeId, x: Node, n: NodeId, w: Unit, u: Unit)
    requires x.link == Live && (Stale(db, x, u) ==> OnItsWay(id, x, u))
    ensures var y := Committed(id, x, n, w, VersionOf(db, w) + 1);
            Stale(db[w := VersionOf(db, w) + 1], y, u) ==> OnItsWay(id, y, u)
  {
    NotifyCovers(db, {}, id, x, Announced(n, w, VersionOf(db, w) + 1), u);
  }

  /** Coverage looks at the unit's own version only, and not at what is loaded. */
  lemma CoverageIsLocal(db: Versions, db': Versions, handlers: set<string>, id: NodeId, x: Node, y: Node, u: Unit)
    requires VersionOf(db, u) == VersionOf(db', u) && y.(loaded := x.loaded, unnoted := x.unnoted) == x
    ensures Covered(db, handlers, id, x, u) <==> Covered(db', handlers, id, y, u)
  {
    assert Believed(x) == Believed(y);
    assert WillReload(db, handlers, x, u) <==> WillReload(db', handlers, y, u);
  }

  /** A commit by another node is announced, or a Resync is owed that will find it. */
  lemma PeerCommitCovers(db: Versions, handlers: set<string>, id: NodeId, x: Node, n: NodeId, u: Unit)
    requires NodeOk(db, x) && id != n
    ensures var v := VersionOf(db, u) + 1; Covered(db[u := v], handlers, id, Notified(x, Announced(n, u, v)), u)
  {
    NotifyCovers(db, handlers, id, x, Announced(n, u, VersionOf(db, u) + 1), u);
    if x.work.Scanned? {
      BaseIsBelow(db, x);
    }
    assert BelowIfAny(Believed(x), db);
  }

  lemma CommitCovers(db: Versions, handlers: set<string>, id: NodeId, x: Node, n: NodeId, w: Unit, u: Unit)
    requires NodeOk(db, x)
    requires Stale(db, x, u) ==> Covered(db, handlers, id, x, u)
    ensures var db' := db[w := VersionOf(db, w) + 1];
            var y := Committed(id, x, n, w, VersionOf(db, w) + 1);
            Stale(db', y, u) ==> Covered(db', handlers, id, y, u)
  {
    var db', y := db[w := VersionOf(db, w) + 1], Committed(id, x, n, w, VersionOf(db, w) + 1);
    var m := Announced(n, w, VersionOf(db, w) + 1);
    if u != w {
      NotifyCovers(db, handlers, id, x, m, u);
      CoverageIsLocal(db, db', handlers, id, Notified(x, m), y, u);
    } else if id != n {
      PeerCommitCovers(db, handlers, id, x, n, u);
    }
  }

  /** The steps that lose nothing: each stale unit stays covered, in the same way or a later one. */
  lemma PlainStepCovers(db: Versions, handlers: set<string>, x: Node, step: Step, u: Unit)
    requires EnabledAt(x, step) && !step.Commit? && !step.Join? && NodeOk(db, x) && Stale(db, x, u)
    requires !step.Query? && !step.Disconnect? && !step.Reload? && !step.Baseline? && !step.Load?
    requires step.Deliver? || step.HandResync? ==> x.stage == Serving
    ensures Covered(db, handlers, step.n, x, u) ==> Covered(db, handlers, step.n, Acted(db, handlers, x, step), u)
    ensures x.link == Live && OnItsWay(step.n, x, u) ==> OnItsWay(step.n, Acted(db, handlers, x, step), u)
  {
    if step.Deliver? {
      DeliverCovers(db, handlers, step.n, x, u);
    } else if step.Plan? {
      PlanCovers(db, handlers, step.n, x, u);
    } else if step.Note? && Covered(db, handlers, step.n, x, u) {
      NoteCovers(db, handlers, x, step, u);
    }
  }

  lemma ReloadCovers(db: Versions, handlers: set<string>, x: Node, step: Step, u: Unit)
    requires EnabledAt(x, step) && step.Reload? && NodeOk(db, x)
    ensures var y := Reloaded(db, x, step.u, step.ok);
            && (u != step.u ==> (Stale(db, x, u) <==> Stale(db, y, u)))
            && (u != step.u ==> (OnItsWay(step.n, x, u) <==> OnItsWay(step.n, y, u)))
            && (u != step.u ==> (Covered(db, handlers, step.n, x, u) <==> Covered(db, handlers, step.n, y, u)))
            && (step.ok ==> !Stale(db, y, step.u))
            && (!step.ok ==> (Stale(db, x, step.u) <==> Stale(db, y, step.u)))
            && (Covered(db, handlers, step.n, y, step.u) <==>
                  InInbox(step.n, x.inbox, step.u) || step.u in x.queue.pending
                  || (ResyncOwed(step.n, x) && Differs(Believed(x), db, step.u)))
  {
  }

  lemma QueryIsSafeIff(db: Versions, handlers: set<string>, x: Node, step: Step)
    requires NodeOk(db, x) && NodeCovered(db, handlers, step.n, x) && step.Query? && EnabledAt(x, step)
    ensures NodeCovered(db, handlers, step.n, Acted(db, handlers, x, step)) <==> SafeAt(db, handlers, x, step)
  {
    var y := Acted(db, handlers, x, step);
    forall u | Stale(db, x, u)
      ensures Covered(db, handlers, step.n, y, u) <==>
              (step.ok && !x.work.resync ==>
                 OnItsWay(step.n, x, u) || exists w :: w in x.work.batch && w.domain !in handlers)
    {
      QueryCovers(db, handlers, step.n, x, step.ok, u);
    }
    assert forall u :: Stale(db, x, u) <==> Stale(db, y, u);
  }

  lemma ReloadIsSafeIff(db: Versions, handlers: set<string>, x: Node, step: Step)
    requires NodeOk(db, x) && NodeCovered(db, handlers, step.n, x) && step.Reload? && EnabledAt(x, step)
    ensures NodeCovered(db, handlers, step.n, Acted(db, handlers, x, step)) <==> SafeAt(db, handlers, x, step)
  {
    var y := Acted(db, handlers, x, step);
    forall u ensures u != step.u && Stale(db, y, u) ==> Covered(db, handlers, step.n, y, u) {
      ReloadCovers(db, handlers, x, step, u);
    }
    ReloadCovers(db, handlers, x, step, step.u);
  }

  lemma DisconnectIsSafeIff(db: Versions, handlers: set<string>, x: Node, step: Step)
    requires NodeOk(db, x) && NodeCovered(db, handlers, step.n, x) && step.Disconnect? && EnabledAt(x, step)
    ensures NodeCovered(db, handlers, step.n, Acted(db, handlers, x, step)) <==> SafeAt(db, handlers, x, step)
  {
    var y := Acted(db, handlers, x, step);
    assert forall u :: Stale(db, x, u) <==> Stale(db, y, u);
    assert Believed(y) == Believed(x);
    assert forall u :: Covered(db, handlers, step.n, y, u) <==>
      x.stage == Unloaded || u in x.queue.pending || InWork(x, u) || WillReload(db, handlers, x, u)
      || Differs(Believed(x), db, u);
  }

  lemma StartIsSafeIff(db: Versions, handlers: set<string>, x: Node, step: Step)
    requires NodeOk(db, x) && NodeCovered(db, handlers, step.n, x) && EnabledAt(x, step)
    requires step.Baseline? || ((step.Deliver? || step.HandResync?) && x.stage != Serving)
    ensures NodeCovered(db, handlers, step.n, Acted(db, handlers, x, step)) <==> SafeAt(db, handlers, x, step)
  {
    var y := Acted(db, handlers, x, step);
    assert forall u :: Stale(db, x, u) <==> Stale(db, y, u);
    if step.Baseline? {
      forall u | Stale(db, x, u) ensures u in db {
        NoteIsOlder(db, x, u);
      }
    }
  }

  lemma ActedCovers(db: Versions, handlers: set<string>, x: Node, step: Step)
    requires NodeOk(db, x) && NodeCovered(db, handlers, step.n, x)
    requires EnabledAt(x, step) && !step.Commit? && !step.Join?
    ensures NodeCovered(db, handlers, step.n, Acted(db, handlers, x, step)) <==> SafeAt(db, handlers, x, step)
  {
    if step.Query? {
      QueryIsSafeIff(db, handlers, x, step);
    } else if step.Reload? {
      ReloadIsSafeIff(db, handlers, x, step);
    } else if step.Disconnect? {
      DisconnectIsSafeIff(db, handlers, x, step);
    } else if step.Baseline? || ((step.Deliver? || step.HandResync?) && x.stage != Serving) {
      StartIsSafeIff(db, handlers, x, step);
    } else if !step.Load? {
      var y := Acted(db, handlers, x, step);
      forall u | Stale(db, y, u) ensures Covered(db, handlers, step.n, y, u) {
        assert Stale(db, x, u);
        PlainStepCovers(db, handlers, x, step, u);
      }
    }
  }

  lemma NextNodeCovered(s: State, step: Step, id: NodeId)
    requires Ok(s) && AllCovered(s) && Enabled(s, step) && id in s.nodes
    requires id != step.n || step.Commit? || step.Join?
    ensures NodeCovered(NextDb(s, step), s.handlers, id, NextNode(s, step, id))
  {
    var x := s.nodes[id];
    assert NodeOk(s.db, x) && NodeCovered(s.db, s.handlers, id, x);
    forall u | Stale(NextDb(s, step), NextNode(s, step, id), u)
      ensures Covered(NextDb(s, step), s.handlers, id, NextNode(s, step, id), u)
    {
      if step.Commit? {
        CommitCovers(s.db, s.handlers, id, x, step.n, step.u, u);
      } else if step.Join? {
        NotifyCovers(s.db, s.handlers, id, x, Joined(step.n), u);
      }
    }
  }

  /**
   The exact condition: a step keeps every stale unit covered if and only if it
   is safe.
   */
  lemma StepKeepsCovered(s: State, step: Step)
    requires Ok(s) && AllCovered(s) && Enabled(s, step)
    ensures AllCovered(Next(s, step)) <==> Safe(s, step)
  {
    forall id | id in s.nodes && (id != step.n || step.Commit? || step.Join?)
      ensures NodeCovered(NextDb(s, step), s.handlers, id, NextNode(s, step, id))
    {
      NextNodeCovered(s, step, id);
    }
    if !step.Commit? && !step.Join? {
      assert NodeOk(s.db, s.nodes[step.n]) && NodeCovered(s.db, s.handlers, step.n, s.nodes[step.n]);
      ActedCovers(s.db, s.handlers, s.nodes[step.n], step);
      var t := Next(s, step);
      assert t.db == s.db && t.nodes[step.n] == Acted(s.db, s.handlers, s.nodes[step.n], step);
      if AllCovered(t) {
        assert NodeCovered(t.db, t.handlers, step.n, t.nodes[step.n]);
      }
    }
  }

  // ---------------------------------------------------------------------------
  // Runs
  // ---------------------------------------------------------------------------

  ghost predicate ValidRun(s: State, steps: seq<Step>)
    decreases |steps|
  {
    steps == [] || (Enabled(s, steps[0]) && ValidRun(Next(s, steps[0]), steps[1..]))
  }

  ghost function Run(s: State, steps: seq<Step>): State
    requires ValidRun(s, steps)
    decreases |steps|
  {
    if steps == [] then s else Run(Next(s, steps[0]), steps[1..])
  }

  ghost predicate SafeRun(s: State, steps: seq<Step>)
    requires ValidRun(s, steps)
    decreases |steps|
  {
    steps == [] || (Safe(s, steps[0]) && SafeRun(Next(s, steps[0]), steps[1..]))
  }

  /** A cluster in service whose nodes have loaded and applied what the database holds. */
  ghost predicate Fresh(s: State) {
    && (forall u :: u in s.db ==> 0 < s.db[u])
    && (forall id :: id in s.nodes ==> s.nodes[id] == Node(Serving, s.db, Live, [], EMPTY, Idle, Some(s.db), map[], {}))
  }

  /** Nothing on the bus, nothing queued, the worker idle: what `WaitIdle` waits for. */
  predicate Quiet(x: Node) {
    x.stage == Serving && x.link == Live && x.inbox == [] && x.queue.pending == map[] && !x.queue.resync
        && x.work == Idle
  }

  predicate Agrees(db: Versions, x: Node) { forall u :: u in db.Keys + x.loaded.Keys ==> !Stale(db, x, u) }

  lemma FreshIsCovered(s: State)
    requires Fresh(s)
    ensures Ok(s) && AllCovered(s) && AllOnTheirWay(s)
  {
  }

  lemma QuietAgrees(s: State, id: NodeId)
    requires Ok(s) && id in s.nodes && Quiet(s.nodes[id])
    requires NodeCovered(s.db, s.handlers, id, s.nodes[id])
    ensures Agrees(s.db, s.nodes[id])
  {
  }

  /**
   Convergence with broken connections and failing handlers: after every run of
   safe steps, a quiet node holds exactly what the database holds.
   */
  lemma {:induction false} SafeRunsConverge(s: State, steps: seq<Step>)
    requires Ok(s) && AllCovered(s) && ValidRun(s, steps) && SafeRun(s, steps)
    ensures Ok(Run(s, steps)) && AllCovered(Run(s, steps))
    ensures forall id :: id in Run(s, steps).nodes && Quiet(Run(s, steps).nodes[id]) ==>
              Agrees(Run(s, steps).db, Run(s, steps).nodes[id])
    decreases |steps|
  {
    if steps == [] {
      forall id | id in s.nodes && Quiet(s.nodes[id]) ensures Agrees(s.db, s.nodes[id]) {
        QuietAgrees(s, id);
      }
    } else {
      StepKeepsOk(s, steps[0]);
      StepKeepsCovered(s, steps[0]);
      SafeRunsConverge(Next(s, steps[0]), steps[1..]);
    }
  }

  // ---------------------------------------------------------------------------
  // Lossless runs
  // ---------------------------------------------------------------------------

  predicate Lossless(step: Step) { !step.Disconnect? && (step.Reload? ==> step.ok) }

  /** All listeners deliver, and each stale unit is announced to the node that holds it. */
  ghost predicate AllOnTheirWay(s: State) {
    forall id :: id in s.nodes ==> NodeOnItsWay(s.db, id, s.nodes[id])
  }

  lemma ActedOnItsWay(db: Versions, handlers: set<string>, x: Node, step: Step, u: Unit)
    requires NodeOk(db, x) && x.stage == Serving && x.link == Live && EnabledAt(x, step) && Lossless(step)
             && !step.Commit? && !step.Join?
    requires Stale(db, x, u) ==> OnItsWay(step.n, x, u)
    ensures Stale(db, Acted(db, handlers, x, step), u) ==> OnItsWay(step.n, Acted(db, handlers, x, step), u)
  {
    if Stale(db, Acted(db, handlers, x, step), u) {
      if step.Reload? {
        ReloadCovers(db, handlers, x, step, u);
      } else if !step.Query? {
        PlainStepCovers(db, handlers, x, step, u);
      }
    }
  }

  ghost predicate NodeOnItsWay(db: Versions, id: NodeId, x: Node) {
    x.stage == Serving && x.link == Live && forall u :: Stale(db, x, u) ==> OnItsWay(id, x, u)
  }

  lemma ActedStaysLive(db: Versions, handlers: set<string>, x: Node, step: Step)
    requires x.stage == Serving && x.link == Live && EnabledAt(x, step) && Lossless(step)
    ensures var y := Acted(db, handlers, x, step); y.stage == Serving && y.link == Live
  {
  }

  lemma NextUnitOnItsWay(s: State, step: Step, id: NodeId, u: Unit)
    requires Enabled(s, step) && (step.n == id ==> Lossless(step)) && id in s.nodes
    requires NodeOk(s.db, s.nodes[id]) && NodeOnItsWay(s.db, id, s.nodes[id])
    ensures Stale(NextDb(s, step), NextNode(s, step, id), u) ==> OnItsWay(id, NextNode(s, step, id), u)
  {
    var x := s.nodes[id];
    if step.Commit? {
      CommitAnnounces(s.db, id, x, step.n, step.u, u);
    } else if step.Join? {
      NotifyCovers(s.db, s.handlers, id, x, Joined(step.n), u);
    } else if id == step.n {
      ActedOnItsWay(s.db, s.handlers, x, step, u);
    }
  }

  lemma NextNodeOnItsWay(s: State, step: Step, id: NodeId)
    requires Ok(s) && Enabled(s, step) && (step.n == id ==> Lossless(step))
    requires id in s.nodes && NodeOnItsWay(s.db, id, s.nodes[id])
    ensures NodeOnItsWay(NextDb(s, step), id, NextNode(s, step, id))
  {
    var x, y := s.nodes[id], NextNode(s, step, id);
    assert NodeOk(s.db, x);
    if !step.Commit? && !step.Join? && id == step.n {
      ActedStaysLive(s.db, s.handlers, x, step);
    }
    forall u | Stale(NextDb(s, step), y, u) ensures OnItsWay(id, y, u) {
      NextUnitOnItsWay(s, step, id, u);
    }
  }

  /**
   Convergence over a lossless bus with succeeding handlers: whatever other nodes
   do, in every run in which nothing of this node fails, any unit it holds at an
   older version than the database has an announcement on its way to it, so when
   it is quiet it agrees with the database.
   */
  lemma {:induction false} LosslessRunsConverge(s: State, steps: seq<Step>, id: NodeId)
    requires Ok(s) && id in s.nodes && NodeOnItsWay(s.db, id, s.nodes[id]) && ValidRun(s, steps)
    requires forall i :: 0 <= i < |steps| && steps[i].n == id ==> Lossless(steps[i])
    ensures Ok(Run(s, steps)) && id in Run(s, steps).nodes
    ensures NodeOnItsWay(Run(s, steps).db, id, Run(s, steps).nodes[id])
    ensures Quiet(Run(s, steps).nodes[id]) ==> Agrees(Run(s, steps).db, Run(s, steps).nodes[id])
    decreases |steps|
  {
    if steps != [] {
      StepKeepsOk(s, steps[0]);
      NextNodeOnItsWay(s, steps[0], id);
      LosslessRunsConverge(Next(s, steps[0]), steps[1..], id);
    }
  }
}
