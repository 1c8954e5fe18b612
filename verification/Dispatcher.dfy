/**
 The dispatcher of configuration events: the queue that coalesces a burst, and
 the worker that turns a drained batch into reloads.
 */
module Dispatcher {
  import opened Text
  import opened ConfigEvents

  // ---------------------------------------------------------------------------
  // The queue
  // ---------------------------------------------------------------------------

  datatype Queue = Queue(pending: map<Unit, ConfigEvent>, order: seq<Unit>, resync: bool)

  const EMPTY := Queue(map[], [], false)

  /** What one bus event asks of the queue. */
  datatype Request = AskResync | Announce(unit: Unit, event: ConfigEvent)

  /** A usable event in canonical form; anything else still says that something changed. */
  function Requested(ev: BusEvent): (r: Request)
    ensures r.Announce? ==> r.event.domain == r.unit.domain && r.event.key == r.unit.key
  {
    match ev
    case Resync => AskResync
    case Config(None) => AskResync
    case Config(Some(p)) =>
      var domain := TrimSpace(p.domain);
      var tenant := NormalizeTenant(p.tenant);
      if domain == "" then AskResync
      else Announce(Unit(domain, tenant, p.key), ConfigEvent(domain, tenant, p.key, p.version))
  }

  /** The event a request carries names the unit it is filed under. */
  lemma RequestNamesItsUnit(ev: BusEvent)
    ensures Requested(ev).Announce? ==> Requested(ev).event.About() == Requested(ev).unit
  {
    if Requested(ev).Announce? {
      TrimSpaceTrims(ev.payload.value.tenant);
      assert NormalizeTenant(SYSTEM_TENANT) == SYSTEM_TENANT;
    }
  }

  /** The queue after the critical section of `Enqueue`. */
  function Recorded(q: Queue, r: Request): Queue {
    match r
    case AskResync => q.(resync := true)
    case Announce(u, p) =>
      if u in q.pending then
        if p.version > q.pending[u].version then q.(pending := q.pending[u := p]) else q
      else Queue(q.pending[u := p], q.order + [u], q.resync)
  }

  predicate Distinct(us: seq<Unit>) { forall i, j :: 0 <= i < j < |us| ==> us[i] != us[j] }

  /** `order` lists the keys of `pending` once each. */
  ghost predicate Consistent(q: Queue) {
    && Distinct(q.order)
    && (forall u :: u in q.order <==> u in q.pending)
  }

  lemma RecordedConsistent(q: Queue, r: Request)
    requires Consistent(q)
    ensures Consistent(Recorded(q, r))
  {
  }

  function RecordedAll(rs: seq<Request>): Queue {
    if rs == [] then EMPTY else Recorded(RecordedAll(rs[..|rs| - 1]), rs[|rs| - 1])
  }

  /** Request `i` of the burst announces `u`. */
  ghost predicate Names(rs: seq<Request>, i: int, u: Unit) {
    0 <= i < |rs| && rs[i].Announce? && rs[i].unit == u
  }

  /** `p` is one of the events announced for `u`, and none of them has a higher version. */
  ghost predicate Newest(rs: seq<Request>, u: Unit, p: ConfigEvent) {
    && (exists i :: Names(rs, i, u) && rs[i].event == p)
    && (forall i :: Names(rs, i, u) ==> rs[i].event.version <= p.version)
  }

  /**
   Coalescing: after any burst the queue lists each announced unit once, with
   the highest version seen, holds no other unit, and asks for a resync exactly
   when some event was a resync or unreadable.
   */
  lemma {:induction false} BurstIsCoalesced(rs: seq<Request>, u: Unit)
    ensures Consistent(RecordedAll(rs))
    ensures u in RecordedAll(rs).pending <==> exists i :: Names(rs, i, u)
    ensures u in RecordedAll(rs).pending ==> Newest(rs, u, RecordedAll(rs).pending[u])
    ensures RecordedAll(rs).resync <==> AskResync in rs
    decreases |rs|
  {
    if rs != [] {
      var front := rs[..|rs| - 1];
      var r := rs[|rs| - 1];
      BurstIsCoalesced(front, u);
      RecordedConsistent(RecordedAll(front), r);
      assert rs == front + [r];
      forall i | Names(front, i, u) ensures Names(rs, i, u) && rs[i] == front[i] {
      }
      forall i | Names(rs, i, u) ensures i == |front| || Names(front, i, u) {
      }
      if Names(rs, |front|, u) || u in RecordedAll(front).pending {
        NewestAfter(front, r, u);
      }
    }
  }

  lemma NewestAfter(front: seq<Request>, r: Request, u: Unit)
    requires u in RecordedAll(front).pending <==> exists i :: Names(front, i, u)
    requires u in RecordedAll(front).pending ==> Newest(front, u, RecordedAll(front).pending[u])
    requires u in Recorded(RecordedAll(front), r).pending
    ensures Newest(front + [r], u, Recorded(RecordedAll(front), r).pending[u])
  {
    var rs := front + [r];
    var q := RecordedAll(front);
    var p := Recorded(q, r).pending[u];
    if u in q.pending && p == q.pending[u] {
      var i :| Names(front, i, u) && front[i].event == p;
      assert Names(rs, i, u) && rs[i].event == p;
    } else {
      assert Names(rs, |front|, u) && rs[|front|].event == p;
    }
    forall i | Names(rs, i, u) ensures rs[i].event.version <= p.version {
      if i < |front| {
        assert Names(front, i, u);
      }
    }
  }

  /** The event can be decoded and names a domain. */
  predicate Readable(ev: BusEvent) { ev.Config? && ev.payload.Some? && TrimSpace(ev.payload.value.domain) != "" }

  /** The unit a readable event is about: a blank tenant is the system tenant. */
  function UnitOf(ev: BusEvent): Unit
    requires Readable(ev)
  {
    var p := ev.payload.value;
    Unit(TrimSpace(p.domain),
         if TrimSpace(p.tenant) == "" then "00000000-0000-0000-0000-000000000001" else TrimSpace(p.tenant),
         p.key)
  }

  /** A readable event announces its unit and version; every other asks for a resync. */
  lemma RequestedMeans(ev: BusEvent)
    ensures Requested(ev) == AskResync <==> !Readable(ev)
    ensures Readable(ev) ==>
              Requested(ev).Announce? && Requested(ev).unit == UnitOf(ev)
              && Requested(ev).event.version == ev.payload.value.version
  {
  }

  /**
   What one bus event does to the queue: an event that is a Resync or not readable
   asks for a resync and queues nothing; a readable one queues its unit, with the
   higher of the two versions, behind the units already waiting.
   */
  ghost predicate Queued(q: Queue, ev: BusEvent, r: Queue) {
    && (r.resync <==> q.resync || !Readable(ev))
    && (!Readable(ev) ==> r.pending == q.pending && r.order == q.order)
    && (Readable(ev) ==>
          var u, v := UnitOf(ev), ev.payload.value.version;
          && r.pending.Keys == q.pending.Keys + {u} && r.pending[u].version >= v
          && (r.pending[u].version == v || (u in q.pending && r.pending[u] == q.pending[u]))
          && r.order == q.order + (if u in q.pending then [] else [u])
          && forall w :: w in q.pending && w != u ==> r.pending[w] == q.pending[w])
  }

  lemma RecordedMeans(q: Queue, ev: BusEvent)
    ensures Queued(q, ev, Recorded(q, Requested(ev)))
  {
    RequestedMeans(ev);
  }

  function Requests(evs: seq<BusEvent>): (rs: seq<Request>)
    ensures |rs| == |evs| && forall i :: 0 <= i < |evs| ==> rs[i] == Requested(evs[i])
  {
    seq(|evs|, i requires 0 <= i < |evs| => Requested(evs[i]))
  }

  /** Event `i` of the burst announces `u`. */
  ghost predicate Announces(evs: seq<BusEvent>, i: int, u: Unit) {
    0 <= i < |evs| && Readable(evs[i]) && UnitOf(evs[i]) == u
  }

  /**
   Coalescing, of bus events: after any burst each announced unit is queued once
   with the highest version announced for it, nothing else is queued, and a
   resync is asked for exactly when some event was a Resync or not readable.
   */
  lemma BurstOfEventsIsCoalesced(evs: seq<BusEvent>, u: Unit)
    ensures var q := RecordedAll(Requests(evs));
            && Consistent(q)
            && (u in q.pending <==> exists i :: Announces(evs, i, u))
            && (forall i :: Announces(evs, i, u) ==>
                  u in q.pending && evs[i].payload.value.version <= q.pending[u].version)
            && (u in q.pending ==>
                  exists i :: Announces(evs, i, u) && evs[i].payload.value.version == q.pending[u].version)
            && (q.resync <==> exists i :: 0 <= i < |evs| && !Readable(evs[i]))
  {
    var rs := Requests(evs);
    BurstIsCoalesced(rs, u);
    forall i | 0 <= i < |evs|
      ensures (Names(rs, i, u) <==> Announces(evs, i, u)) && (rs[i] == AskResync <==> !Readable(evs[i]))
      ensures Readable(evs[i]) ==> rs[i].event.version == evs[i].payload.value.version
    {
      RequestedMeans(evs[i]);
    }
    BurstWitnesses(evs, rs, u);
  }

  lemma BurstWitnesses(evs: seq<BusEvent>, rs: seq<Request>, u: Unit)
    requires |rs| == |evs|
    requires forall i :: 0 <= i < |evs| ==> (Names(rs, i, u) <==> Announces(evs, i, u))
    requires forall i :: 0 <= i < |evs| ==> (rs[i] == AskResync <==> !Readable(evs[i]))
    ensures (exists i :: Names(rs, i, u)) <==> (exists i :: Announces(evs, i, u))
    ensures AskResync in rs <==> exists i :: 0 <= i < |evs| && !Readable(evs[i])
  {
    if i :| Names(rs, i, u) {
      assert Announces(evs, i, u);
    }
    if i :| Announces(evs, i, u) {
      assert Names(rs, i, u);
    }
    if i :| 0 <= i < |evs| && !Readable(evs[i]) {
      assert rs[i] == AskResync;
    }
  }

  // ---------------------------------------------------------------------------
  // Fingerprints
  // ---------------------------------------------------------------------------

  /** `Fingerprints.Changed` as a set: the units it reports. */
  function ChangedUnits(f: Fingerprints, base: Fingerprints): set<Unit> {
    (set u | u in f && TokenOf(base, u) != f[u]) + (set u | u in base && u !in f)
  }

  predicate NoEmptyToken(f: Fingerprints) { forall u :: u in f ==> f[u] != "" }

  /** The units that differ, appeared or disappeared. */
  function DifferingUnits(f: Fingerprints, base: Fingerprints): set<Unit> {
    set u | u in f.Keys + base.Keys && !(u in f && u in base && f[u] == base[u])
  }

  /** The comparison misses a change exactly when a unit appeared with an empty token. */
  lemma ChangedIsExact(f: Fingerprints, base: Fingerprints)
    ensures ChangedUnits(f, base) <= DifferingUnits(f, base)
    ensures ChangedUnits(f, base) == DifferingUnits(f, base) <==> forall u :: u in f && u !in base ==> f[u] != ""
  {
    if u :| u in f && u !in base && f[u] == "" {
      assert u in DifferingUnits(f, base) && u !in ChangedUnits(f, base);
    }
  }

  /** An event without version, as the comparison produces them. */
  function UnversionedEvent(u: Unit): ConfigEvent { ConfigEvent(u.domain, u.tenant, u.key, 0) }

  predicate NormalUnit(u: Unit) { NormalizeTenant(u.tenant) == u.tenant }

  predicate NormalUnits(f: Fingerprints) { forall u :: u in f ==> NormalUnit(u) }

  /** One event per unit of `us`: what both loops of `Fingerprints.Changed` append. */
  ghost predicate Lists(out: seq<ConfigEvent>, us: set<Unit>) {
    && DistinctUnits(out) && Units(out) == us
    && forall i :: 0 <= i < |out| ==> out[i] == UnversionedEvent(out[i].About())
  }

  lemma ListsOneMore(out: seq<ConfigEvent>, us: set<Unit>, u: Unit)
    requires Lists(out, us) && u !in us && NormalUnit(u)
    ensures Lists(out + [UnversionedEvent(u)], us + {u})
  {
    UnitsOfAppend(out, UnversionedEvent(u));
    forall i | 0 <= i < |out| ensures out[i].About() != u {
      assert out[i].About() in Units(out);
    }
  }

  /** `Fingerprints.Changed`: one event per changed unit, in the order the maps are walked. */
  method Changed(f: Fingerprints, base: Fingerprints) returns (out: seq<ConfigEvent>)
    requires NormalUnits(f) && NormalUnits(base)
    ensures Lists(out, ChangedUnits(f, base))
  {
    out := [];
    var todo := f.Keys;
    ghost var found: set<Unit> := {};
    while todo != {}
      invariant todo <= f.Keys && Lists(out, found)
      invariant found == set u | u in f.Keys - todo && TokenOf(base, u) != f[u]
      decreases todo
    {
      var u :| u in todo;
      todo := todo - {u};
      if TokenOf(base, u) != f[u] {
        ListsOneMore(out, found, u);
        out, found := out + [UnversionedEvent(u)], found + {u};
      }
    }
    todo := base.Keys;
    ghost var differing := found;
    while todo != {}
      invariant todo <= base.Keys && Lists(out, found)
      invariant found == differing + set u | u in base.Keys - todo && u !in f
      decreases todo
    {
      var u :| u in todo;
      todo := todo - {u};
      if u !in f {
        ListsOneMore(out, found, u);
        out, found := out + [UnversionedEvent(u)], found + {u};
      }
    }
    assert found == ChangedUnits(f, base);
  }

  /** `out` is the batch and then events of `extra`, one for each unit the batch does not name. */
  ghost predicate Merged(batch: seq<ConfigEvent>, extra: seq<ConfigEvent>, out: seq<ConfigEvent>) {
    && batch <= out
    && Units(out) == Units(batch) + Units(extra)
    && (DistinctUnits(batch) ==> DistinctUnits(out))
    && forall i :: |batch| <= i < |out| ==> out[i] in extra
  }

  lemma MergedStep(batch: seq<ConfigEvent>, extra: seq<ConfigEvent>, out: seq<ConfigEvent>, ev: ConfigEvent)
    requires Merged(batch, extra, out)
    ensures Merged(batch, extra + [ev], if ev.About() in Units(out) then out else out + [ev])
  {
    UnitsOfAppend(extra, ev);
    if ev.About() !in Units(out) {
      UnitsOfAppend(out, ev);
      forall j | 0 <= j < |out| ensures out[j].About() != ev.About() {
        assert out[j].About() in Units(out);
      }
    }
  }

  /** `mergeEvents`: the batch, then the extra events about units it does not name yet. */
  method MergeEvents(batch: seq<ConfigEvent>, extra: seq<ConfigEvent>) returns (out: seq<ConfigEvent>)
    ensures Merged(batch, extra, out)
  {
    out := batch;
    var seen := Units(batch);
    for i := 0 to |extra|
      invariant seen == Units(out) && Merged(batch, extra[..i], out)
    {
      PrefixGrows(extra, i);
      MergedStep(batch, extra[..i], out, extra[i]);
      if extra[i].About() !in seen {
        seen := seen + {extra[i].About()};
        UnitsOfAppend(out, extra[i]);
        out := out + [extra[i]];
      }
    }
    assert extra[..|extra|] == extra;
  }

  // ---------------------------------------------------------------------------
  // Grouping by domain
  // ---------------------------------------------------------------------------

  /** A reload the worker performs: one domain's handler with its events, or everything. */
  datatype Call = FullReload | Handler(domain: string, events: seq<ConfigEvent>)

  function OfDomain(batch: seq<ConfigEvent>, domain: string): seq<ConfigEvent> {
    if batch == [] then []
    else
      var rest := OfDomain(batch[..|batch| - 1], domain);
      if batch[|batch| - 1].domain == domain then rest + [batch[|batch| - 1]] else rest
  }

  /** The domains of a batch in order of first appearance. */
  function Domains(batch: seq<ConfigEvent>): seq<string> {
    if batch == [] then []
    else
      var ds := Domains(batch[..|batch| - 1]);
      if batch[|batch| - 1].domain in ds then ds else ds + [batch[|batch| - 1].domain]
  }

  /** The handler calls for a batch whose domains all have handlers. */
  function Grouped(batch: seq<ConfigEvent>): seq<Call> {
    seq(|Domains(batch)|, i requires 0 <= i < |Domains(batch)| =>
      Handler(Domains(batch)[i], OfDomain(batch, Domains(batch)[i])))
  }

  lemma {:induction false} DomainsOfBatch(batch: seq<ConfigEvent>)
    ensures forall i, j :: 0 <= i < j < |Domains(batch)| ==> Domains(batch)[i] != Domains(batch)[j]
    ensures forall d :: d in Domains(batch) <==> exists i :: 0 <= i < |batch| && batch[i].domain == d
    decreases |batch|
  {
    if batch != [] {
      var front := batch[..|batch| - 1];
      DomainsOfBatch(front);
      var last := batch[|batch| - 1].domain;
      assert last in Domains(batch);
      forall d | exists i :: 0 <= i < |batch| && batch[i].domain == d ensures d in Domains(batch) {
        var i :| 0 <= i < |batch| && batch[i].domain == d;
        if i < |front| {
          assert front[i].domain == d;
        }
      }
      forall d | d in Domains(batch) ensures exists i :: 0 <= i < |batch| && batch[i].domain == d {
        if d in Domains(front) {
          var i :| 0 <= i < |front| && front[i].domain == d;
          assert batch[i].domain == d;
        } else {
          assert batch[|front|].domain == d;
        }
      }
    }
  }

  lemma {:induction false} OfDomainKeeps(batch: seq<ConfigEvent>, d: string, ev: ConfigEvent)
    ensures multiset(OfDomain(batch, d))[ev] == if ev.domain == d then multiset(batch)[ev] else 0
    decreases |batch|
  {
    if batch != [] {
      OfDomainKeeps(batch[..|batch| - 1], d, ev);
      assert batch == batch[..|batch| - 1] + [batch[|batch| - 1]];
    }
  }

  /**
   Exactly once: every domain is called once, and each event of the batch
   reaches its domain's call as often as it is in the batch, and no other call.
   */
  lemma EachEventOnce(batch: seq<ConfigEvent>, ev: ConfigEvent)
    ensures forall i, j :: 0 <= i < j < |Grouped(batch)| ==> Grouped(batch)[i].domain != Grouped(batch)[j].domain
    ensures forall i :: 0 <= i < |Grouped(batch)| ==>
              multiset(Grouped(batch)[i].events)[ev] ==
              if ev.domain == Grouped(batch)[i].domain then multiset(batch)[ev] else 0
    ensures ev in batch ==> exists i :: 0 <= i < |Grouped(batch)| && Grouped(batch)[i].domain == ev.domain
  {
    DomainsOfBatch(batch);
    forall i | 0 <= i < |Grouped(batch)|
      ensures multiset(Grouped(batch)[i].events)[ev] ==
              if ev.domain == Grouped(batch)[i].domain then multiset(batch)[ev] else 0
    {
      OfDomainKeeps(batch, Domains(batch)[i], ev);
    }
    if ev in batch {
      assert ev.domain in Domains(batch);
      var i :| 0 <= i < |Domains(batch)| && Domains(batch)[i] == ev.domain;
      assert Grouped(batch)[i].domain == ev.domain;
    }
  }

  /** Each call lists its events in the order of the batch. */
  lemma {:induction false} OfDomainInOrder(a: seq<ConfigEvent>, b: seq<ConfigEvent>, d: string)
    ensures OfDomain(a + b, d) == OfDomain(a, d) + OfDomain(b, d)
    decreases |b|
  {
    if b == [] {
      assert a + b == a;
    } else {
      OfDomainInOrder(a, b[..|b| - 1], d);
      assert (a + b)[..|a + b| - 1] == a + b[..|b| - 1];
    }
  }

  /** Domains are called in order of first appearance: more events only append further domains. */
  lemma {:induction false} DomainsInOrder(a: seq<ConfigEvent>, b: seq<ConfigEvent>)
    ensures Domains(a) <= Domains(a + b)
    decreases |b|
  {
    if b == [] {
      assert a + b == a;
    } else {
      DomainsInOrder(a, b[..|b| - 1]);
      assert (a + b)[..|a + b| - 1] == a + b[..|b| - 1];
    }
  }

  lemma {:induction false} OfDomainIsPart(batch: seq<ConfigEvent>, d: string)
    ensures forall i :: 0 <= i < |OfDomain(batch, d)| ==>
            OfDomain(batch, d)[i] in batch && OfDomain(batch, d)[i].domain == d
    ensures DistinctUnits(batch) ==> DistinctUnits(OfDomain(batch, d))
    decreases |batch|
  {
    if batch != [] {
      var front := batch[..|batch| - 1];
      OfDomainIsPart(front, d);
      assert batch == front + [batch[|batch| - 1]];
      if DistinctUnits(batch) {
        assert DistinctUnits(front);
        forall i | 0 <= i < |OfDomain(front, d)| ensures OfDomain(front, d)[i].About() != batch[|batch| - 1].About() {
          var k :| 0 <= k < |front| && front[k] == OfDomain(front, d)[i];
          assert batch[k].About() != batch[|batch| - 1].About();
        }
      }
    }
  }

  /** Call `i` passes its handler an event about `u` at position `j`. */
  ghost predicate Reaches(calls: seq<Call>, i: int, j: int, u: Unit) {
    0 <= i < |calls| && calls[i].Handler? && 0 <= j < |calls[i].events| && calls[i].events[j].About() == u
  }

  /** Exactly one handler call passes exactly one event about `u`, and it is the call of its domain. */
  ghost predicate ReachedOnce(calls: seq<Call>, u: Unit) {
    && (exists i, j :: Reaches(calls, i, j, u) && calls[i].domain == u.domain)
    && (forall i, j, k, l :: Reaches(calls, i, j, u) && Reaches(calls, k, l, u) ==> i == k && j == l)
  }

  /**
   Resync completeness: with non-empty tokens, every unit that differs, appeared
   or disappeared since `applied` is passed to a handler, its own domain's, and
   exactly once.
   */
  lemma ResyncReachesEveryChange(merged: seq<ConfigEvent>, current: Fingerprints, applied: Fingerprints, u: Unit)
    requires DistinctUnits(merged) && ChangedUnits(current, applied) <= Units(merged)
    requires NoEmptyToken(current)
    requires u in DifferingUnits(current, applied)
    ensures ReachedOnce(Grouped(merged), u)
  {
    ChangedIsExact(current, applied);
    var calls := Grouped(merged);
    var m :| 0 <= m < |merged| && merged[m].About() == u;
    EachEventOnce(merged, merged[m]);
    var i :| 0 <= i < |calls| && calls[i].domain == merged[m].domain;
    assert multiset(calls[i].events)[merged[m]] > 0;
    var j :| 0 <= j < |calls[i].events| && calls[i].events[j] == merged[m];
    assert Reaches(calls, i, j, u);
    forall i, j, k, l | Reaches(calls, i, j, u) && Reaches(calls, k, l, u) ensures i == k && j == l {
      OfDomainIsPart(merged, calls[i].domain);
      OfDomainIsPart(merged, calls[k].domain);
      assert calls[i].events[j].domain == u.domain == calls[k].events[l].domain;
      DomainsOfBatch(merged);
    }
  }

  // ---------------------------------------------------------------------------
  // The worker
  // ---------------------------------------------------------------------------

  /** A write of this node counts as applied when it is still current, or nothing is known. */
  predicate CountsAsApplied(notes: Fingerprints, current: Option<Fingerprints>, u: Unit) {
    u in notes && (current.None? || TokenOf(current.value, u) == notes[u])
  }

  /** What the node has applied once its own writes are counted. */
  function Absorbed(applied: Fingerprints, notes: Fingerprints, current: Option<Fingerprints>): Fingerprints {
    applied + (map u | u in notes && CountsAsApplied(notes, current, u) :: notes[u])
  }

  predicate AllHandled(handlers: set<string>, batch: seq<ConfigEvent>) {
    forall i :: 0 <= i < |batch| ==> batch[i].domain in handlers
  }

  /** What the worker does with a batch: the reloads it performs and what counts as applied afterwards. */
  ghost predicate Processed(handlers: set<string>, before: Option<Fingerprints>, batch: seq<ConfigEvent>, resync: bool,
                            current: Option<Fingerprints>, notes: Fingerprints,
                            merged: seq<ConfigEvent>, calls: seq<Call>, after: Option<Fingerprints>) {
    var a := if before.None? then None else Some(Absorbed(before.value, notes, current));
    if resync && (current.None? || a.None?) then calls == [FullReload] && after == current
    else
      && batch <= merged && DistinctUnits(merged)
      && Units(merged) == Units(batch) + (if resync then ChangedUnits(current.value, a.value) else {})
      && calls == (if AllHandled(handlers, merged) then Grouped(merged) else [FullReload])
      && after == if current.Some? then current else a
  }

  method AbsorbNotes(applied: Fingerprints, notes: Fingerprints, current: Option<Fingerprints>)
    returns (result: Fingerprints)
    ensures result == Absorbed(applied, notes, current)
  {
    result := applied;
    var todo := notes.Keys;
    while todo != {}
      invariant todo <= notes.Keys
      invariant forall u :: u in result <==> u in applied || (u !in todo && CountsAsApplied(notes, current, u))
      invariant forall u :: u in result ==>
                  result[u] == if u !in todo && CountsAsApplied(notes, current, u) then notes[u] else applied[u]
      decreases todo
    {
      var u :| u in todo;
      todo := todo - {u};
      if CountsAsApplied(notes, current, u) {
        result := result[u := notes[u]];
      }
    }
  }

  class Worker {
    const handlers: set<string>
    var applied: Option<Fingerprints>
    var pending: map<Unit, ConfigEvent>
    var order: seq<Unit>
    var resync: bool
    var busy: bool
    /** Reloads performed, oldest first. */
    var calls: seq<Call>

    ghost predicate Valid()
      reads this
    {
      && Consistent(Contents())
      && (forall u :: u in pending ==> pending[u].About() == u)
      && (applied.Some? ==> NormalUnits(applied.value))
    }

    ghost function Contents(): Queue
      reads this
    {
      Queue(pending, order, resync)
    }

    constructor (handlers: set<string>, baseline: Option<Fingerprints>)
      requires baseline.Some? ==> NormalUnits(baseline.value)
      ensures Valid() && Contents() == EMPTY && applied == baseline && calls == [] && !busy
      ensures this.handlers == handlers
    {
      this.handlers := handlers;
      applied := baseline;
      pending, order, resync, busy, calls := map[], [], false, false, [];
    }

    method Enqueue(ev: BusEvent)
      requires Valid()
      modifies this`pending, this`order, this`resync
      ensures Valid() && Contents() == Recorded(old(Contents()), Requested(ev))
      ensures Queued(old(Contents()), ev, Contents())
    {
      RecordedMeans(Contents(), ev);
      RecordedConsistent(Contents(), Requested(ev));
      RequestNamesItsUnit(ev);
      Record(Requested(ev));
    }

    /** The critical section. */
    method Record(r: Request)
      modifies this`pending, this`order, this`resync
      ensures Contents() == Recorded(old(Contents()), r)
    {
      match r {
        case AskResync =>
          resync := true;
        case Announce(u, p) =>
          if u in pending {
            if p.version > pending[u].version {
              pending := pending[u := p];
            }
          } else {
            pending := pending[u := p];
            order := order + [u];
          }
      }
    }

    /** The critical section that opens `drainAndProcess`: the whole queue becomes the batch. */
    method Drain() returns (batch: seq<ConfigEvent>, hadResync: bool)
      requires Valid()
      modifies this`pending, this`order, this`resync, this`busy
      ensures Valid() && busy && Contents() == EMPTY
      ensures hadResync == old(resync)
      ensures |batch| == |old(order)| && DistinctUnits(batch)
      ensures forall i :: 0 <= i < |batch| ==> batch[i] == old(pending)[old(order)[i]]
      ensures Units(batch) == old(pending).Keys
    {
      batch := [];
      for i := 0 to |order|
        invariant |batch| == i
        invariant forall j :: 0 <= j < i ==> batch[j] == pending[order[j]]
      {
        batch := batch + [pending[order[i]]];
      }
      forall u | u in pending ensures u in Units(batch) {
        var i :| 0 <= i < |order| && order[i] == u;
        assert batch[i].About() == u;
      }
      hadResync := resync;
      pending, order, resync, busy := map[], [], false, true;
    }

    /** `forgetLocalWrites` with the notes just taken. */
    method ForgetLocalWrites(notes: Fingerprints, current: Option<Fingerprints>)
      requires Valid() && NormalUnits(notes)
      modifies this`applied
      ensures Valid()
      ensures applied == if old(applied).None? then None else Some(Absorbed(old(applied).value, notes, current))
    {
      if applied.Some? {
        var result := AbsorbNotes(applied.value, notes, current);
        applied := Some(result);
      }
    }

    /**
     `process`: the batch that is reloaded is the queued batch, extended on a
     resync by every changed unit; a full reload replaces it when the changes
     cannot be told or some domain has no handler. Afterwards the node counts as
     having applied the snapshot read before reloading.
     */
    method Process(batch: seq<ConfigEvent>, hadResync: bool, current: Option<Fingerprints>, notes: Fingerprints)
      returns (merged: seq<ConfigEvent>)
      requires Valid() && NormalUnits(notes) && (current.Some? ==> NormalUnits(current.value))
      requires DistinctUnits(batch)
      modifies this`applied, this`calls
      ensures Valid()
      ensures old(calls) <= calls
      ensures Processed(handlers, old(applied), batch, hadResync, current, notes, merged, calls[|old(calls)|..],
              applied)
      ensures hadResync && current.Some? && old(applied).Some? && NoEmptyToken(current.value) ==>
                forall u :: u in DifferingUnits(current.value, Absorbed(old(applied).value, notes, current)) ==>
                  calls == old(calls) + [FullReload] || ReachedOnce(calls[|old(calls)|..], u)
    {
      ForgetLocalWrites(notes, current);
      ghost var base := applied;
      merged := batch;
      if hadResync {
        if current.None? || applied.None? {
          calls := calls + [FullReload];
          applied := current;
          return;
        }
        var changed := Changed(current.value, applied.value);
        merged := MergeEvents(batch, changed);
      }
      for i := 0 to |merged|
        invariant forall j :: 0 <= j < i ==> merged[j].domain in handlers
      {
        if merged[i].domain !in handlers {
          calls := calls + [FullReload];
          if current.Some? {
            applied := current;
          }
          return;
        }
      }
      Dispatch(merged);
      if hadResync && NoEmptyToken(current.value) {
        assert calls[|old(calls)|..] == Grouped(merged);
        forall u | u in DifferingUnits(current.value, base.value) ensures ReachedOnce(Grouped(merged), u) {
          ResyncReachesEveryChange(merged, current.value, base.value, u);
        }
      }
      if current.Some? {
        applied := current;
      }
    }

    /** The loops that group a batch by domain and call each handler. */
    method Dispatch(batch: seq<ConfigEvent>)
      modifies this`calls
      ensures calls == old(calls) + Grouped(batch)
    {
      var byDomain: map<string, seq<ConfigEvent>> := map[];
      var domains: seq<string> := [];
      for i := 0 to |batch|
        invariant domains == Domains(batch[..i]) && calls == old(calls)
        invariant forall d :: d in byDomain <==> d in domains
        invariant forall d :: d in byDomain ==> byDomain[d] == OfDomain(batch[..i], d)
      {
        var ev := batch[i];
        assert batch[..i + 1][..i] == batch[..i];
        if ev.domain !in byDomain {
          NoneOfDomain(batch[..i], ev.domain);
          domains := domains + [ev.domain];
          byDomain := byDomain[ev.domain := [ev]];
        } else {
          byDomain := byDomain[ev.domain := byDomain[ev.domain] + [ev]];
        }
      }
      assert batch[..|batch|] == batch;
      var made: seq<Call> := [];
      for i := 0 to |domains|
        invariant made == Grouped(batch)[..i]
        invariant domains == Domains(batch) && calls == old(calls)
        invariant forall d :: d in domains ==> d in byDomain && byDomain[d] == OfDomain(batch, d)
      {
        made := made + [Handler(domains[i], byDomain[domains[i]])];
      }
      calls := calls + made;
    }
  }

  lemma {:induction false} NoneOfDomain(batch: seq<ConfigEvent>, d: string)
    requires d !in Domains(batch)
    ensures OfDomain(batch, d) == []
    decreases |batch|
  {
    if batch != [] {
      NoneOfDomain(batch[..|batch| - 1], d);
    }
  }

  /** A write of this node that is still current is not found changed, so its own Resync does not reload it. */
  lemma OwnWriteIsNotReloaded(applied: Fingerprints, notes: Fingerprints, current: Fingerprints, u: Unit)
    requires u in notes && u in current && current[u] == notes[u]
    ensures u !in ChangedUnits(current, Absorbed(applied, notes, Some(current)))
    ensures TokenOf(Absorbed(applied, notes, None), u) == notes[u]
  {
  }

  /** Absorbing a note never marks a unit as applied at a token other than the node's own write. */
  lemma NotesHideNothing(applied: Fingerprints, notes: Fingerprints, current: Fingerprints, u: Unit)
    ensures var a := Absorbed(applied, notes, Some(current));
            TokenOf(a, u) != TokenOf(applied, u) ==> u in notes && TokenOf(a, u) == notes[u] == TokenOf(current, u)
    ensures u in notes && notes[u] != TokenOf(current, u) && u in ChangedUnits(current, applied) ==>
              u in ChangedUnits(current, Absorbed(applied, notes, Some(current)))
  {
  }
}
