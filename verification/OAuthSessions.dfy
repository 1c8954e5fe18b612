/**
 Shared OAuth login sessions: a table of guarded updates, each judged by the
 database clock. Times and intervals are in seconds.
 */
module OAuthSessions {
  import opened Text

  const OWNER_LOST_AFTER := 60
  const CALLBACK_GRACE := 120
  const RETENTION := 3600

  const MESSAGE_EXPIRED := "OAuth session expired; start the login again"
  const MESSAGE_OWNER_LOST := "The server node handling this login stopped before it finished; start the login again"

  datatype Status = Pending | Success | Error | Cancelled | Expired

  datatype Row = Row(provider: string, tenant: string, status: Status, error: string, owner: string,
                     callback: Option<string>, created: int, expires: int, completed: Option<int>, heartbeat: int)

  type Table = map<string, Row>

  // ---------------------------------------------------------------------------
  // Row updates
  // ---------------------------------------------------------------------------

  function NewRow(provider: string, tenant: string, owner: string, ttl: int, now: int): Row {
    Row(provider, tenant, Pending, "", owner, None, now, now + ttl, None, now)
  }

  /** The guard of `Deliver`: live, of this provider, and its owner still heartbeats. */
  predicate CanDeliver(r: Row, provider: string, now: int) {
    r.provider == provider && r.status == Pending && r.expires > now && r.heartbeat >= now - OWNER_LOST_AFTER
  }

  function Max(a: int, b: int): int { if a > b then a else b }

  function DeliveredRow(r: Row, payload: string, now: int): Row {
    r.(callback := Some(payload), expires := Max(r.expires, now + CALLBACK_GRACE))
  }

  /** A pending row ends: its callback is gone with it. */
  function EndedRow(r: Row, status: Status, message: string, now: int): Row {
    r.(status := status, error := message, callback := None, completed := Some(now))
  }

  predicate CanCancel(r: Row, provider: string, tenant: string, now: int) {
    r.provider == provider && r.status == Pending && r.expires > now && (tenant == "" || r.tenant == tenant)
  }

  function ExpiredRow(r: Row, now: int): Row {
    if r.status == Pending && r.expires <= now then EndedRow(r, Expired, MESSAGE_EXPIRED, now) else r
  }

  function AbandonedRow(r: Row, now: int): Row {
    if r.status == Pending && r.heartbeat < now - OWNER_LOST_AFTER
       then EndedRow(r, Error, MESSAGE_OWNER_LOST, now) else r
  }

  /** What a sweep makes of one row, before deletion. */
  function SweptRow(r: Row, now: int): Row { AbandonedRow(ExpiredRow(r, now), now) }

  predicate PastRetention(r: Row, now: int) { r.expires < now - RETENTION }

  // ---------------------------------------------------------------------------
  // Statements
  // ---------------------------------------------------------------------------

  datatype Op =
    | Create(state: string, provider: string, tenant: string, owner: string, ttl: int)
    | Deliver(state: string, provider: string, payload: string)
    | Take(state: string)
    | Finish(state: string, status: Status, message: string, ttl: int)
    | Cancel(provider: string, tenant: string, message: string, ttl: int)
    | Heartbeat(state: string, owner: string)
    | Sweep

  /** The row `id` after the statement. */
  function RowAfter(t: Table, id: string, op: Op, now: int): Option<Row> {
    var r := if id in t then Some(t[id]) else None;
    match op
    case Create(state, provider, tenant, owner, ttl) =>
      if state == id then Some(NewRow(provider, tenant, owner, ttl, now)) else r
    case Deliver(state, provider, payload) =>
      if state == id && r.Some? && CanDeliver(r.value, provider, now)
         then Some(DeliveredRow(r.value, payload, now)) else r
    case Take(state) =>
      if state == id && r.Some? && r.value.status == Pending then Some(r.value.(callback := None)) else r
    case Finish(state, status, message, ttl) =>
      if state == id && r.Some? && r.value.status == Pending
      then Some(EndedRow(r.value, status, message, now).(expires := now + ttl)) else r
    case Cancel(provider, tenant, message, ttl) =>
      if r.Some? && CanCancel(r.value, provider, tenant, now)
      then Some(EndedRow(r.value, Cancelled, message, now).(expires := now + ttl)) else r
    case Heartbeat(state, owner) =>
      if state == id && r.Some? && r.value.owner == owner && r.value.status == Pending && r.value.expires > now
      then Some(r.value.(heartbeat := now)) else r
    case Sweep =>
      if r.Some? then (if PastRetention(r.value, now) then None else Some(SweptRow(r.value, now))) else None
  }

  function TouchedIds(t: Table, op: Op): set<string> {
    t.Keys + (if op.Create? then {op.state} else {})
  }

  function After(t: Table, op: Op, now: int): Table {
    map id | id in TouchedIds(t, op) && RowAfter(t, id, op, now).Some? :: RowAfter(t, id, op, now).value
  }

  lemma AfterRow(t: Table, op: Op, now: int, id: string)
    ensures (if id in After(t, op, now) then Some(After(t, op, now)[id]) else None) == RowAfter(t, id, op, now)
  {
  }

  /** A cancellation ends exactly the live logins of the provider, and of the tenant if one is named. */
  lemma CancelMeans(t: Table, provider: string, tenant: string, message: string, ttl: int, now: int, id: string)
    requires id in t
    ensures var r := t[id];
            RowAfter(t, id, Cancel(provider, tenant, message, ttl), now) ==
            if r.provider != provider || r.status != Pending || r.expires <= now || (tenant != "" && r.tenant != tenant)
            then Some(r)
            else Some(Row(r.provider, r.tenant, Cancelled, message, r.owner, None, r.created, now + ttl, Some(now),
                          r.heartbeat))
  {
  }

  /** A callback is accepted for a live login of this provider whose owner was heard from in the last minute. */
  lemma DeliverMeans(t: Table, id: string, provider: string, payload: string, now: int)
    requires id in t
    ensures var r := t[id];
            RowAfter(t, id, Deliver(id, provider, payload), now) ==
            if r.provider != provider || r.status != Pending || r.expires <= now || r.heartbeat < now - 60
            then Some(r)
            else Some(Row(r.provider, r.tenant, Pending, r.error, r.owner, Some(payload), r.created,
                          if r.expires < now + 120 then now + 120 else r.expires, r.completed, r.heartbeat))
  {
  }

  /**
   A sweep ends a pending login that has expired, or whose owner has been silent
   for more than a minute, and deletes a row an hour after its expiry.
   */
  lemma SweepMeans(t: Table, now: int, id: string)
    requires id in t
    ensures var r := t[id];
            RowAfter(t, id, Sweep, now) ==
            if r.expires < now - 3600 then None
            else if r.status == Pending && (r.expires <= now || r.heartbeat < now - 60) then
              Some(Row(r.provider, r.tenant,
                       if r.expires <= now then Expired else Error,
                       if r.expires <= now then MESSAGE_EXPIRED else MESSAGE_OWNER_LOST,
                       r.owner, None, r.created, r.expires, Some(now), r.heartbeat))
            else Some(r)
  {
  }

  // ---------------------------------------------------------------------------
  // Conservation of callbacks
  // ---------------------------------------------------------------------------

  /** What happened to the callbacks of one login since it was created. */
  datatype Ledger = Ledger(delivered: nat, taken: nat, overwritten: nat, dropped: nat, leftPending: nat)

  const NO_ENTRIES := Ledger(0, 0, 0, 0, 0)

  function Held(r: Option<Row>): nat { if r.Some? && r.value.callback.Some? then 1 else 0 }

  /** The statement ends the pending login `id`. */
  predicate Ends(id: string, r: Row, op: Op, now: int) {
    match op
    case Finish(state, _, _, _) => state == id
    case Cancel(provider, tenant, _, _) => CanCancel(r, provider, tenant, now)
    case Sweep => r.expires <= now || r.heartbeat < now - OWNER_LOST_AFTER
    case _ => false
  }

  /** `Finish` may be told to end a login as pending, which lets it go on. */
  predicate LeavesPending(op: Op) { !(op.Finish? && op.status == Pending) }

  /** The ledger of login `id` after a statement on table `t`. */
  function Entered(l: Ledger, t: Table, id: string, op: Op, now: int): Ledger {
    if op.Create? && op.state == id then NO_ENTRIES
    else if id !in t || t[id].status != Pending then l
    else
      var held := Held(Some(t[id]));
      if op.Deliver? && op.state == id && CanDeliver(t[id], op.provider, now) then
        l.(delivered := l.delivered + 1, overwritten := l.overwritten + held)
      else if op.Take? && op.state == id then l.(taken := l.taken + held)
      else if Ends(id, t[id], op, now) then
        l.(dropped := l.dropped + held, leftPending := l.leftPending + if LeavesPending(op) then 1 else 0)
      else l
  }

  ghost predicate RowOk(r: Row) { r.status != Pending ==> r.callback == None }

  ghost predicate Balanced(l: Ledger, t: Table, id: string) {
    var r := if id in t then Some(t[id]) else None;
    && (r.Some? ==> RowOk(r.value))
    && l.delivered == l.taken + l.overwritten + l.dropped + Held(r)
    && l.leftPending <= 1
    && (r.Some? && r.value.status == Pending ==> l.leftPending == 0)
  }

  lemma StatementBalances(l: Ledger, t: Table, id: string, op: Op, now: int)
    requires Balanced(l, t, id)
    ensures Balanced(Entered(l, t, id, op, now), After(t, op, now), id)
  {
    AfterRow(t, op, now, id);
  }

  /** A statement with the clock reading it runs at. */
  datatype Timed = Timed(op: Op, now: int)

  function RunTable(t: Table, run: seq<Timed>): Table
    decreases |run|
  {
    if run == [] then t else RunTable(After(t, run[0].op, run[0].now), run[1..])
  }

  function RunLedger(l: Ledger, t: Table, id: string, run: seq<Timed>): Ledger
    decreases |run|
  {
    if run == [] then l
    else RunLedger(Entered(l, t, id, run[0].op, run[0].now), After(t, run[0].op, run[0].now), id, run[1..])
  }

  lemma {:induction false} RunsBalance(l: Ledger, t: Table, id: string, run: seq<Timed>)
    requires Balanced(l, t, id)
    ensures Balanced(RunLedger(l, t, id, run), RunTable(t, run), id)
    decreases |run|
  {
    if run != [] {
      StatementBalances(l, t, id, run[0].op, run[0].now);
      RunsBalance(Entered(l, t, id, run[0].op, run[0].now), After(t, run[0].op, run[0].now), id, run[1..]);
    }
  }

  /**
   Conservation: after every run from an empty table, for every login, counted
   since its last Create, the callbacks delivered are those taken, overwritten
   or dropped when the login ended, plus the one still held; the login left
   `pending` at most once; and a login that is not pending holds no callback.
   */
  lemma CallbacksAreConserved(id: string, run: seq<Timed>)
    ensures var l, t := RunLedger(NO_ENTRIES, map[], id, run), RunTable(map[], run);
            && l.delivered == l.taken + l.overwritten + l.dropped + (if id in t && t[id].callback.Some? then 1 else 0)
            && l.leftPending <= 1
            && (id in t && t[id].status == Pending ==> l.leftPending == 0)
            && (id in t && t[id].status != Pending ==> t[id].callback.None?)
  {
    RunsBalance(NO_ENTRIES, map[], id, run);
  }

  /** Sweeping twice at one clock reading is sweeping once. */
  lemma SweepIsIdempotent(t: Table, now: int)
    ensures After(After(t, Sweep, now), Sweep, now) == After(t, Sweep, now)
  {
    var once := After(t, Sweep, now);
    var twice := After(once, Sweep, now);
    forall id ensures (if id in twice then Some(twice[id]) else None) == (if id in once then Some(once[id]) else None) {
      AfterRow(t, Sweep, now, id);
      AfterRow(once, Sweep, now, id);
    }
    assert twice.Keys == once.Keys;
  }

  // ---------------------------------------------------------------------------
  // The repository
  // ---------------------------------------------------------------------------

  /** No row but `id` differs. */
  ghost predicate OnlyRow(before: Table, after: Table, id: string) {
    forall k :: k != id ==> (k in before <==> k in after) && (k in before && k in after ==> before[k] == after[k])
  }

  /** At time `t` a callback of this provider is accepted and a sweep leaves the row alone. */
  predicate Waits(r: Row, provider: string, t: int) {
    CanDeliver(r, provider, t) && SweptRow(r, t) == r && !PastRetention(r, t)
  }

  /** Still the same login of the same owner, heard from at the same time. */
  predicate SameLogin(a: Row, b: Row) {
    a.status == b.status && a.provider == b.provider && a.tenant == b.tenant && a.owner == b.owner
    && a.heartbeat == b.heartbeat && a.created == b.created && a.completed == b.completed
  }

  /** A login that is over: no callback is accepted or can be taken, and nothing ends it a second time. */
  ghost predicate Over(t: Table, id: string) {
    id in t && forall op: Op, now: int :: !op.Create? && !op.Sweep? ==> RowAfter(t, id, op, now) == Some(t[id])
  }

  function CancelledRow(r: Row, message: string, ttl: int, now: int): Row {
    EndedRow(r, Cancelled, message, now).(expires := now + ttl)
  }

  lemma CancelledTable(t: Table, u: Table, states: seq<string>,
                       provider: string, tenant: string, message: string, ttl: int, now: int)
    requires t.Keys == u.Keys
    requires forall id :: id in states <==> id in t && CanCancel(t[id], provider, tenant, now)
    requires forall id :: id in t ==> u[id] == if id in states then CancelledRow(t[id], message, ttl, now) else t[id]
    ensures u == After(t, Cancel(provider, tenant, message, ttl), now)
  {
    var op := Cancel(provider, tenant, message, ttl);
    forall id | id in t ensures RowAfter(t, id, op, now) == Some(u[id]) {
    }
    assert After(t, op, now).Keys == t.Keys;
  }

  class Repo {
    var rows: Table

    constructor ()
      ensures rows == map[]
    {
      rows := map[];
    }

    method CreateSession(state: string, provider: string, tenant: string, owner: string, ttl: int, now: int)
      modifies this
      ensures rows == After(old(rows), Create(state, provider, tenant, owner, ttl), now)
      ensures OnlyRow(old(rows), rows, state) && state in rows
      ensures rows[state] == Row(provider, tenant, Pending, "", owner, None, now, now + ttl, None, now)
      ensures forall t :: now <= t < now + ttl && t <= now + OWNER_LOST_AFTER ==> Waits(rows[state], provider, t)
    {
      rows := rows[state := NewRow(provider, tenant, owner, ttl, now)];
      assert rows == After(old(rows), Create(state, provider, tenant, owner, ttl), now);
    }

    method DeliverCallback(state: string, provider: string, payload: string, now: int) returns (ok: bool)
      modifies this
      ensures rows == After(old(rows), Deliver(state, provider, payload), now)
      ensures ok <==> state in old(rows) && old(rows)[state].provider == provider && old(rows)[state].status == Pending
                      && old(rows)[state].expires > now && old(rows)[state].heartbeat >= now - 60
      ensures OnlyRow(old(rows), rows, state) && (!ok ==> rows == old(rows))
      ensures ok ==> rows[state].callback == Some(payload) && SameLogin(old(rows)[state], rows[state])
      ensures ok ==> rows[state].expires >= old(rows)[state].expires && rows[state].expires >= now + CALLBACK_GRACE
    {
      ok := state in rows && CanDeliver(rows[state], provider, now);
      if ok {
        rows := rows[state := DeliveredRow(rows[state], payload, now)];
      }
      assert rows == After(old(rows), Deliver(state, provider, payload), now);
    }

    /** Reads and clears the callback in one statement. */
    method TakeCallback(state: string, now: int) returns (payload: Option<string>)
      modifies this
      ensures rows == After(old(rows), Take(state), now)
      ensures payload == if state in old(rows) && old(rows)[state].status == Pending
              then old(rows)[state].callback else None
    {
      payload := None;
      if state in rows && rows[state].status == Pending && rows[state].callback.Some? {
        payload := rows[state].callback;
        rows := rows[state := rows[state].(callback := None)];
      }
      assert rows == After(old(rows), Take(state), now);
    }

    method FinishSession(state: string, status: Status, message: string, ttl: int, now: int) returns (ok: bool)
      modifies this
      ensures rows == After(old(rows), Finish(state, status, message, ttl), now)
      ensures ok <==> state in old(rows) && old(rows)[state].status == Pending
      ensures OnlyRow(old(rows), rows, state) && (!ok ==> rows == old(rows))
      ensures ok && status != Pending ==> Over(rows, state)
      ensures ok ==> rows[state] == old(rows)[state].(status := status, error := message, callback := None,
                                                      completed := Some(now), expires := now + ttl)
    {
      ok := state in rows && rows[state].status == Pending;
      if ok {
        rows := rows[state := EndedRow(rows[state], status, message, now).(expires := now + ttl)];
      }
      assert rows == After(old(rows), Finish(state, status, message, ttl), now);
    }

    /** Cancels every matching login and lists their states. */
    method CancelPending(provider: string, tenant: string, message: string, ttl: int, now: int)
      returns (states: seq<string>)
      modifies this
      ensures rows == After(old(rows), Cancel(provider, tenant, message, ttl), now)
      ensures forall i, j :: 0 <= i < j < |states| ==> states[i] != states[j]
      ensures forall id :: id in states <==>
                id in old(rows) && old(rows)[id].provider == provider && old(rows)[id].status == Pending
                && old(rows)[id].expires > now && (tenant == "" || old(rows)[id].tenant == tenant)
      ensures rows.Keys == old(rows).Keys
      ensures forall id :: id in old(rows) && id !in states ==> rows[id] == old(rows)[id]
      ensures forall id :: id in states ==> rows[id] == old(rows)[id].(status := Cancelled, error := message,
                callback := None, completed := Some(now), expires := now + ttl)
    {
      states := CancelRows(provider, tenant, message, ttl, now);
      CancelledTable(old(rows), rows, states, provider, tenant, message, ttl, now);
    }

    /** The update and the loop over the states it returns. */
    method CancelRows(provider: string, tenant: string, message: string, ttl: int, now: int)
      returns (states: seq<string>)
      modifies this
      ensures rows.Keys == old(rows).Keys && forall i, j :: 0 <= i < j < |states| ==> states[i] != states[j]
      ensures forall id :: id in states <==> id in old(rows) && CanCancel(old(rows)[id], provider, tenant, now)
      ensures forall id :: id in old(rows) ==>
                rows[id] == if id in states then CancelledRow(old(rows)[id], message, ttl, now) else old(rows)[id]
    {
      states := [];
      var todo := rows.Keys;
      while todo != {}
        invariant todo <= old(rows).Keys && rows.Keys == old(rows).Keys
        invariant forall i, j :: 0 <= i < j < |states| ==> states[i] != states[j]
        invariant forall id :: id in states <==>
                    id in old(rows).Keys - todo && CanCancel(old(rows)[id], provider, tenant, now)
        invariant forall id :: id in old(rows) ==>
                    rows[id] == if id in states then CancelledRow(old(rows)[id], message, ttl, now) else old(rows)[id]
        decreases todo
      {
        var id :| id in todo;
        todo := todo - {id};
        if CanCancel(rows[id], provider, tenant, now) {
          rows := rows[id := CancelledRow(rows[id], message, ttl, now)];
          states := states + [id];
        }
      }
    }

    method Beat(state: string, owner: string, now: int) returns (ok: bool)
      modifies this
      ensures rows == After(old(rows), Heartbeat(state, owner), now)
      ensures ok <==> state in old(rows) && old(rows)[state].owner == owner && old(rows)[state].status == Pending
                      && old(rows)[state].expires > now
      ensures OnlyRow(old(rows), rows, state) && (!ok ==> rows == old(rows))
      ensures ok ==> rows[state].callback == old(rows)[state].callback
      ensures ok ==> rows[state].expires == old(rows)[state].expires
      ensures ok ==> forall t :: now <= t < rows[state].expires && t <= now + OWNER_LOST_AFTER ==>
                       Waits(rows[state], rows[state].provider, t)
    {
      ok := state in rows && rows[state].owner == owner && rows[state].status == Pending && rows[state].expires > now;
      if ok {
        rows := rows[state := rows[state].(heartbeat := now)];
      }
      assert rows == After(old(rows), Heartbeat(state, owner), now);
    }

    /** The three statements of a sweep, one after the other. */
    method SweepSessions(now: int)
      modifies this
      ensures rows == After(old(rows), Sweep, now)
    {
      rows := map id | id in rows :: ExpiredRow(rows[id], now);
      rows := map id | id in rows :: AbandonedRow(rows[id], now);
      rows := map id | id in rows && !PastRetention(rows[id], now) :: rows[id];
      assert rows == After(old(rows), Sweep, now);
    }
  }
}
