/**
 Ties the cluster model to the dispatcher's own terms, and shows a run in which
 a Resync does not repair a lost announcement.
 */
module ConfigClusterFacts {
  import opened Text
  import opened ConfigEvents
  import opened Dispatcher
  import opened ConfigCluster
  import ConfigClusterRepair

  // ---------------------------------------------------------------------------
  // Versions and tokens
  // ---------------------------------------------------------------------------

  /** The fingerprint of a versioned unit is the numeral of its version. */
  function Tokens(m: Versions): Fingerprints {
    map u | u in m :: FormatInt(m[u])
  }

  /** A unit as writers name it: a trimmed, non-blank domain and a normalised tenant. */
  predicate ProperUnit(u: Unit) {
    u.domain != "" && TrimSpace(u.domain) == u.domain && NormalizeTenant(u.tenant) == u.tenant
  }

  /** An announced unit is queued under its own name. */
  lemma AnnouncementNamesItsUnit(u: Unit, v: nat)
    requires ProperUnit(u)
    ensures var ev := ConfigEvent(u.domain, u.tenant, u.key, v);
            Requested(Config(Some(ev))) == Announce(u, ev) && ev.About() == u
  {
  }

  /** Comparing tokens finds exactly the units whose versions differ. */
  lemma TokensChangeWithVersions(current: Versions, base: Versions)
    ensures ChangedUnits(Tokens(current), Tokens(base)) == ChangedVersions(current, base)
  {
    forall u | u in current && u in base
      ensures Tokens(current)[u] == Tokens(base)[u] <==> current[u] == base[u]
    {
      FormatIntInjective(current[u], base[u]);
    }
  }

  function TokensIfAny(m: Option<Versions>): Option<Fingerprints> {
    if m.None? then None else Some(Tokens(m.value))
  }

  lemma CountsLikeVersions(notes: Versions, current: Option<Versions>, u: Unit)
    requires u in notes && 0 < notes[u]
    ensures CountsAsApplied(Tokens(notes), TokensIfAny(current), u) <==>
            current.None? || VersionOf(current.value, u) == notes[u]
  {
    if current.Some? {
      FormatIntInjective(VersionOf(current.value, u), notes[u]);
    }
  }

  /** Absorbing notes by token is absorbing them by version. */
  lemma TokensAbsorbLikeVersions(applied: Versions, notes: Versions, current: Option<Versions>)
    requires forall u :: u in notes ==> 0 < notes[u]
    ensures Absorbed(Tokens(applied), Tokens(notes), TokensIfAny(current)) ==
            Tokens(AbsorbedVersions(applied, notes, current))
  {
    forall u | u in notes
      ensures CountsAsApplied(Tokens(notes), TokensIfAny(current), u) <==>
              current.None? || VersionOf(current.value, u) == notes[u]
    {
      CountsLikeVersions(notes, current, u);
    }
  }

  /**
   The plan of the cluster model is what the dispatcher's worker does: the same
   units, the same tokens applied afterwards, and everything in the same cases.
   */
  lemma ProcessIsPlan(handlers: set<string>, x: Node, batch: seq<ConfigEvent>,
                      merged: seq<ConfigEvent>, calls: seq<Call>, after: Option<Fingerprints>)
    requires x.work.Scanned? && Units(batch) == x.work.batch && forall u :: u in x.notes ==> 0 < x.notes[u]
    requires Processed(handlers, TokensIfAny(x.applied), batch, x.work.resync, TokensIfAny(x.work.current),
                       Tokens(x.notes), merged, calls, after)
    ensures after == TokensIfAny(Outcome(x))
    ensures calls == [FullReload] <==> ReloadsAll(handlers, x)
    ensures !ReloadsAll(handlers, x) ==> Units(merged) == MergedUnits(x) && calls == Grouped(merged)
  {
    if x.applied.Some? {
      TokensAbsorbLikeVersions(x.applied.value, x.notes, x.work.current);
      if x.work.current.Some? {
        TokensChangeWithVersions(x.work.current.value, Base(x).value);
      }
    }
    if !NothingKnown(x) {
      assert Units(merged) == MergedUnits(x);
      HandledByUnit(handlers, merged);
      assert forall i :: 0 <= i < |Grouped(merged)| ==> Grouped(merged)[i].Handler?;
      assert [FullReload][0].FullReload?;
    }
  }

  lemma HandledByUnit(handlers: set<string>, batch: seq<ConfigEvent>)
    ensures AllHandled(handlers, batch) <==> forall u :: u in Units(batch) ==> u.domain in handlers
  {
    forall i | 0 <= i < |batch| ensures batch[i].About() in Units(batch) && batch[i].About().domain == batch[i].domain {
    }
  }

  // ---------------------------------------------------------------------------
  // A Resync that does not repair
  // ---------------------------------------------------------------------------

  ghost predicate Reachable(s: State, t: State) {
    exists steps :: ValidRun(s, steps) && Run(s, steps) == t
  }

  lemma {:induction false} RunAppend(s: State, steps: seq<Step>, step: Step)
    requires ValidRun(s, steps) && Enabled(Run(s, steps), step)
    ensures ValidRun(s, steps + [step]) && Run(s, steps + [step]) == Next(Run(s, steps), step)
    decreases |steps|
  {
    var all := steps + [step];
    if steps == [] {
      assert all[1..] == [];
    } else {
      RunAppend(Next(s, steps[0]), steps[1..], step);
      assert all[1..] == steps[1..] + [step];
    }
  }

  lemma ReachNext(s: State, t: State, step: Step)
    requires Reachable(s, t) && Enabled(t, step)
    ensures Reachable(s, Next(t, step))
  {
    var steps :| ValidRun(s, steps) && Run(s, steps) == t;
    RunAppend(s, steps, step);
  }

  /** Two freshly started nodes over an empty database. */
  function TwoNodes(handlers: set<string>): State {
    var newcomer := Node(Serving, map[], Live, [], EMPTY, Idle, Some(map[]), map[], {});
    State(map[], handlers, map["a" := newcomer, "b" := newcomer])
  }

  /** A state in which `b` is `x`, over database `db`. */
  ghost predicate At(s: State, db: Versions, handlers: set<string>, x: Node) {
    s.db == db && s.handlers == handlers && "a" in s.nodes && "b" in s.nodes && s.nodes["b"] == x
  }

  lemma PeerCommits(start: State, s: State, db: Versions, handlers: set<string>, x: Node, u: Unit) returns (t: State)
    requires Reachable(start, s) && At(s, db, handlers, x) && x.link == Live
    ensures Reachable(start, t)
    ensures At(t, db[u := VersionOf(db, u) + 1], handlers,
               x.(inbox := x.inbox + [Announced("a", u, VersionOf(db, u) + 1)]))
  {
    t := Next(s, Commit("a", u));
    ReachNext(start, s, Commit("a", u));
  }

  lemma NodeActs(start: State, s: State, db: Versions, handlers: set<string>, x: Node, step: Step, y: Node)
    returns (t: State)
    requires Reachable(start, s) && At(s, db, handlers, x)
    requires step.n == "b" && EnabledAt(x, step) && !step.Commit? && !step.Join? && y == Acted(db, handlers, x, step)
    ensures Reachable(start, t) && At(t, db, handlers, y)
  {
    t := Next(s, step);
    ReachNext(start, s, step);
  }

  /** A node that believes it has applied the database, with one announcement on the bus. */
  function Believer(loaded: Versions, db: Versions, inbox: seq<Msg>): Node {
    Node(Serving, loaded, Live, inbox, EMPTY, Idle, Some(db), map[], {})
  }

  /**
   First half: `b` processes the announcement of `r` while that of `p` is still
   on the bus, and from then on believes it has applied `p`, which it never loaded.
   */
  lemma BatchOvertakesAnnouncement(r: Unit, p: Unit, handlers: set<string>) returns (t: State)
    requires r != p && r.domain in handlers && p.domain in handlers
    ensures Reachable(TwoNodes(handlers), t)
    ensures At(t, map[r := 1, p := 1], handlers, Believer(map[r := 1], map[r := 1, p := 1], [Announced("a", p, 1)]))
  {
    var s := TwoNodes(handlers);
    BeginReachable(s);
    t := FirstArrives(s, r, handlers);
    t := SecondIsSent(s, t, r, p, handlers);
    t := SecondPart(s, t, r, p, handlers, Waiting(r, [Announced("a", p, 1)]));
  }

  lemma BeginReachable(s: State)
    ensures Reachable(s, s)
  {
    assert ValidRun(s, []) && Run(s, []) == s;
  }

  /** A fresh node with the first announcement of `r` queued. */
  function Waiting(r: Unit, inbox: seq<Msg>): Node {
    Believer(map[], map[], inbox).(queue := Recorded(EMPTY, Announce(r, ConfigEvent(r.domain, r.tenant, r.key, 1))))
  }

  lemma FirstArrives(s: State, r: Unit, handlers: set<string>) returns (t: State)
    requires Reachable(s, s) && At(s, map[], handlers, Believer(map[], map[], []))
    ensures Reachable(s, t) && At(t, map[r := 1], handlers, Waiting(r, []))
  {
    var x := Believer(map[], map[], []);
    t := PeerCommits(s, s, map[], handlers, x, r);
    var x1 := x.(inbox := [Announced("a", r, 1)]);
    assert x1.inbox == x.inbox + [Announced("a", r, 1)];
    t := NodeActs(s, t, map[r := 1], handlers, x1, Deliver("b"), Waiting(r, []));
  }

  lemma SecondIsSent(s: State, t1: State, r: Unit, p: Unit, handlers: set<string>) returns (t: State)
    requires r != p && Reachable(s, t1) && At(t1, map[r := 1], handlers, Waiting(r, []))
    ensures Reachable(s, t) && At(t, map[r := 1, p := 1], handlers, Waiting(r, [Announced("a", p, 1)]))
  {
    t := PeerCommits(s, t1, map[r := 1], handlers, Waiting(r, []), p);
    assert Waiting(r, []).inbox + [Announced("a", p, 1)] == [Announced("a", p, 1)];
    assert map[r := 1][p := 1] == map[r := 1, p := 1];
  }

  lemma SecondPart(s: State, t2: State, r: Unit, p: Unit, handlers: set<string>, x3: Node) returns (t: State)
    requires r != p && r.domain in handlers && p.domain in handlers && Reachable(s, t2)
    requires x3 == Waiting(r, [Announced("a", p, 1)])
    requires At(t2, map[r := 1, p := 1], handlers, x3)
    ensures Reachable(s, t)
    ensures At(t, map[r := 1, p := 1], handlers, Believer(map[r := 1], map[r := 1, p := 1], [Announced("a", p, 1)]))
  {
    var db := map[r := 1, p := 1];
    var x4 := x3.(work := Drained({r}, false), queue := EMPTY);
    assert x3.queue.pending.Keys == {r};
    t := NodeActs(s, t2, db, handlers, x3, Drain("b"), x4);
    var x5 := x4.(work := Scanned({r}, false, Some(db)));
    t := NodeActs(s, t, db, handlers, x4, Query("b", true), x5);
    t := ThirdPart(s, t, db, r, handlers, x5);
    assert x5.loaded[r := db[r]] == map[r := 1];
  }

  /** An ordinary batch of one unit is planned, reloaded and finished. */
  lemma ThirdPart(s: State, t5: State, db: Versions, r: Unit, handlers: set<string>, x5: Node) returns (t: State)
    requires Reachable(s, t5) && At(t5, db, handlers, x5) && r in db && r.domain in handlers
    requires x5.work == Scanned({r}, false, Some(db)) && x5.applied == Some(map[]) && x5.notes == map[]
    ensures Reachable(s, t)
    ensures At(t, db, handlers, x5.(work := Idle, loaded := x5.loaded[r := db[r]], applied := Some(db)))
  {
    var x6 := x5.(work := Reloading({r}, Some(db)));
    assert AbsorbedVersions(map[], map[], Some(db)) == map[] && MergedUnits(x5) == {r};
    t := NodeActs(s, t5, db, handlers, x5, Plan("b"), x6);
    var x7 := x6.(work := Reloading({}, Some(db)), loaded := x5.loaded[r := db[r]]);
    assert {r} - {r} == {};
    t := NodeActs(s, t, db, handlers, x6, Reload("b", r, true), x7);
    t := NodeActs(s, t, db, handlers, x7, Finish("b"), x7.(work := Idle, applied := Some(db)));
  }

  /**
   Second half, for every such state: once the connection breaks and takes the
   announcement with it, the Resync after reconnecting reloads nothing.
   */
  lemma ResyncFindsNothing(s: State, t0: State, db: Versions, handlers: set<string>, loaded: Versions, inbox: seq<Msg>)
    returns (t: State)
    requires Reachable(s, t0) && At(t0, db, handlers, Believer(loaded, db, inbox))
    ensures Reachable(s, t) && At(t, db, handlers, Believer(loaded, db, []))
  {
    var x0 := Believer(loaded, db, inbox);
    var x1 := x0.(link := Down, inbox := []);
    t := NodeActs(s, t0, db, handlers, x0, Disconnect("b"), x1);
    var x2 := x1.(link := Connected);
    t := NodeActs(s, t, db, handlers, x1, Connect("b"), x2);
    t := NodeActs(s, t, db, handlers, x2, HandResync("b"), Resyncing(loaded, db));
    t := EmptyComparison(s, t, db, handlers, loaded);
  }

  function Resyncing(loaded: Versions, db: Versions): Node {
    Believer(loaded, db, []).(queue := EMPTY.(resync := true))
  }

  lemma NothingChanged(db: Versions, handlers: set<string>, x: Node)
    requires x.work == Scanned({}, true, Some(db)) && x.applied == Some(db) && x.notes == map[]
    ensures Planned(db, handlers, x) == x.(work := Reloading({}, Some(db)))
  {
    assert AbsorbedVersions(db, map[], Some(db)) == db && MergedUnits(x) == {};
  }

  lemma EmptyComparison(s: State, t0: State, db: Versions, handlers: set<string>, loaded: Versions) returns (t: State)
    requires Reachable(s, t0) && At(t0, db, handlers, Resyncing(loaded, db))
    ensures Reachable(s, t) && At(t, db, handlers, Believer(loaded, db, []))
  {
    var x3 := Resyncing(loaded, db);
    var x4 := x3.(work := Drained({}, true), queue := EMPTY);
    assert x3.queue.pending.Keys == {};
    t := NodeActs(s, t0, db, handlers, x3, Drain("b"), x4);
    var scanned := x4.(work := Scanned({}, true, Some(db)));
    t := NodeActs(s, t, db, handlers, x4, Query("b", true), scanned);
    var x5 := x4.(work := Reloading({}, Some(db)));
    NothingChanged(db, handlers, scanned);
    t := NodeActs(s, t, db, handlers, scanned, Plan("b"), x5);
    t := NodeActs(s, t, db, handlers, x5, Finish("b"), Believer(loaded, db, []));
  }

  /**
   A Resync does not always repair: for any two units with handlers there is a
   run from a fresh cluster after which a connected, quiet node still holds an
   old version, and is past repair by any further Resync.
   */
  lemma ResyncCanMissAChange(r: Unit, p: Unit, handlers: set<string>) returns (t: State)
    requires r != p && r.domain in handlers && p.domain in handlers
    ensures Fresh(TwoNodes(handlers)) && Reachable(TwoNodes(handlers), t)
    ensures "b" in t.nodes && Quiet(t.nodes["b"]) && Stale(t.db, t.nodes["b"], p)
    ensures ConfigClusterRepair.Lost(t.db, "b", t.nodes["b"], p)
  {
    var h := BatchOvertakesAnnouncement(r, p, handlers);
    t := ResyncFindsNothing(TwoNodes(handlers), h, map[r := 1, p := 1], handlers, map[r := 1], [Announced("a", p, 1)]);
  }

  // ---------------------------------------------------------------------------
  // A node's own writes, and nodes that join
  // ---------------------------------------------------------------------------

  /** A write is noted under the version the database now has. */
  lemma OwnWriteIsNoted(s: State, n: NodeId, u: Unit)
    requires n in s.nodes
    ensures var v := VersionOf(s.db, u) + 1;
            && Enabled(s, Commit(n, u))
            && var s1 := Next(s, Commit(n, u));
            && s1.db == s.db[u := v] && Enabled(s1, Note(n, u, v))
            && var y := Next(s1, Note(n, u, v)).nodes[n];
            u in y.notes && y.notes[u] == v && VersionOf(y.loaded, u) == v
            && y.applied == s.nodes[n].applied && y.work == s.nodes[n].work && y.queue == s.nodes[n].queue
  {
  }

  /** A Resync does not find a unit changed whose noted write is still current, and so does not reload it for that. */
  lemma NotedWriteIsNotReloaded(db: Versions, x: Node, u: Unit)
    requires x.work.Drained? && u !in x.work.batch && x.applied.Some?
    requires u in db && u in x.notes && x.notes[u] == db[u]
    ensures u !in MergedUnits(Queried(db, x, true))
  {
  }

  /**
   After a node's own commit and its note, the Resync that comes next, undisturbed,
   does not reload that unit on its own account.
   */
  lemma OwnWriteIsNotReloaded(s: State, n: NodeId, u: Unit)
    requires n in s.nodes && s.nodes[n].stage == Serving && s.nodes[n].work == Idle && s.nodes[n].applied.Some?
    requires s.nodes[n].queue.resync && u !in s.nodes[n].queue.pending
    ensures var v := VersionOf(s.db, u) + 1;
            && Enabled(s, Commit(n, u)) && Enabled(Next(s, Commit(n, u)), Note(n, u, v))
            && var y := Next(Next(s, Commit(n, u)), Note(n, u, v)).nodes[n];
            && EnabledAt(y, Drain(n))
            && Acted(s.db, s.handlers, y, Drain(n)).work == Drained(y.queue.pending.Keys, true)
            && u !in MergedUnits(Queried(s.db[u := v], Acted(s.db, s.handlers, y, Drain(n)), true))
  {
    OwnWriteIsNoted(s, n, u);
    var v := VersionOf(s.db, u) + 1;
    var y := Next(Next(s, Commit(n, u)), Note(n, u, v)).nodes[n];
    NotedWriteIsNotReloaded(s.db[u := v], Acted(s.db, s.handlers, y, Drain(n)), u);
  }

  /** A node that joins makes every other listening node owe a Resync. */
  lemma JoinAsksForResync(s: State, n: NodeId, id: NodeId)
    requires n in s.nodes && id in s.nodes && id != n
    ensures Enabled(s, Join(n)) && ResyncOwed(id, Next(s, Join(n)).nodes[id])
  {
    var x, y := s.nodes[id], Next(s, Join(n)).nodes[id];
    if x.link != Down {
      assert y.inbox[|x.inbox|] == Joined(n);
    }
  }
}
