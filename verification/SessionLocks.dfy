/**
 Session advisory locks: the leadership lock and `WithSessionLock` over one
 PostgreSQL server and one connection pool. A client is a goroutine that checks
 a connection out, polls for its lock, and acts while it holds it. Sessions may
 die, replies may be lost and unlocks may fail at any point.
 */
module SessionLocks {
  import opened Text

  type Lock = string
  type Sid = nat
  type ClientId = nat

  /** Where a client is; `acting` is the leader flag, or the locked function running. */
  datatype At =
    | Away                      // no connection checked out
    | Connected                 // may ask for the lock, or give the connection back
    | Asked(granted: bool)      // the server has decided, the reply is under way
    | Won                       // the reply said yes
    | Acting                    // flag set, or function running
    | Leaving                   // flag cleared, or function returned
    | MustDiscard               // unlock attempted, or the reply was lost

  datatype Client = Client(lock: Lock, conn: Option<Sid>, at: At, acting: bool)

  /**
   `alive` are the sessions the server still has, `holder` the session that has
   each lock, `pool` the connections any code may take, `sessions` the number of
   sessions so far.
   */
  datatype State = State(alive: set<Sid>, holder: map<Lock, Sid>, pool: set<Sid>, sessions: nat,
                         clients: map<ClientId, Client>)

  datatype Step =
    | Open
    | Kill(sid: Sid)
    | Checkout(c: ClientId, sid: Sid)
    | Ask(c: ClientId)
    | AskFails(c: ClientId)
    | ReplyArrives(c: ClientId)
    | ReplyLost(c: ClientId)
    | GiveBack(c: ClientId)
    | BeginActing(c: ClientId)
    | Unusable(c: ClientId)
    | EndActing(c: ClientId)
    | Unlock(c: ClientId, ok: bool)
    | Discard(c: ClientId)

  predicate Is(s: State, c: ClientId, at: At) { c in s.clients && s.clients[c].at == at && s.clients[c].conn.Some? }

  predicate Enabled(s: State, step: Step) {
    match step
    case Open => true
    case Kill(sid) => sid in s.alive
    case Checkout(c, sid) => c in s.clients && s.clients[c].at == Away && sid in s.pool
    case Ask(c) => Is(s, c, Connected) && s.clients[c].conn.value in s.alive
    case AskFails(c) => Is(s, c, Connected)
    case ReplyArrives(c) => Is(s, c, Asked(true)) || Is(s, c, Asked(false))
    case ReplyLost(c) => Is(s, c, Asked(true)) || Is(s, c, Asked(false))
    case GiveBack(c) => Is(s, c, Connected)
    case BeginActing(c) => Is(s, c, Won)
    case Unusable(c) => Is(s, c, Won)
    case EndActing(c) => Is(s, c, Acting)
    case Unlock(c, _) => Is(s, c, Leaving)
    case Discard(c) => Is(s, c, Leaving) || Is(s, c, MustDiscard)
  }

  /** `pg_try_advisory_lock`: granted when free, or already this session's. */
  predicate Grants(s: State, lock: Lock, sid: Sid) { lock !in s.holder || s.holder[lock] == sid }

  function Without(holder: map<Lock, Sid>, sid: Sid): map<Lock, Sid> {
    map k | k in holder && holder[k] != sid :: holder[k]
  }

  function Moved(s: State, c: ClientId, at: At): State
    requires c in s.clients
  {
    s.(clients := s.clients[c := s.clients[c].(at := at)])
  }

  function Next(s: State, step: Step): State
    requires Enabled(s, step)
  {
    match step
    case Open => s.(alive := s.alive + {s.sessions}, pool := s.pool + {s.sessions}, sessions := s.sessions + 1)
    case Kill(sid) => s.(alive := s.alive - {sid}, holder := Without(s.holder, sid))
    case Checkout(c, sid) =>
      s.(pool := s.pool - {sid}, clients := s.clients[c := s.clients[c].(conn := Some(sid), at := Connected)])
    case Ask(c) =>
      var x := s.clients[c];
      var g := Grants(s, x.lock, x.conn.value);
      Moved(s, c, Asked(g)).(holder := if g then s.holder[x.lock := x.conn.value] else s.holder)
    case AskFails(c) => Moved(s, c, MustDiscard)
    case ReplyArrives(c) => Moved(s, c, if s.clients[c].at.granted then Won else Connected)
    case ReplyLost(c) => Moved(s, c, MustDiscard)
    case GiveBack(c) =>
      s.(pool := s.pool + {s.clients[c].conn.value},
         clients := s.clients[c := s.clients[c].(conn := None, at := Away)])
    case BeginActing(c) => s.(clients := s.clients[c := s.clients[c].(at := Acting, acting := true)])
    case Unusable(c) => Moved(s, c, Leaving)
    case EndActing(c) => s.(clients := s.clients[c := s.clients[c].(at := Leaving, acting := false)])
    case Unlock(c, ok) =>
      var x := s.clients[c];
      Moved(s, c, MustDiscard).(holder :=
        if ok && x.lock in s.holder && s.holder[x.lock] == x.conn.value then s.holder - {x.lock} else s.holder)
    case Discard(c) => s.(clients := s.clients[c := s.clients[c].(conn := None, at := Away)])
  }

  // ---------------------------------------------------------------------------
  // What every run keeps
  // ---------------------------------------------------------------------------

  ghost predicate HoldsConn(s: State, c: ClientId, sid: Sid) { c in s.clients && s.clients[c].conn == Some(sid) }

  /** The session may have a lock while its client is here. */
  predicate MayHold(at: At) { at == Asked(true) || at == Won || at == Acting || at == Leaving || at == MustDiscard }

  /** The session has the lock while it lives and its client is here. */
  predicate MustHold(at: At) { at == Asked(true) || at == Won || at == Acting }

  ghost predicate ClientOk(s: State, c: ClientId)
    requires c in s.clients
  {
    var x := s.clients[c];
    && (x.conn.None? <==> x.at == Away)
    && (x.acting <==> x.at == Acting)
    && (x.conn.Some? ==> x.conn.value !in s.pool && x.conn.value < s.sessions)
    && (x.conn.Some? && MustHold(x.at) && x.conn.value in s.alive ==>
          x.lock in s.holder && s.holder[x.lock] == x.conn.value)
  }

  /** A held lock belongs to a live session outside the pool; while a client has it, it is that client's lock. */
  ghost predicate LockOk(s: State, k: Lock)
    requires k in s.holder
  {
    && s.holder[k] in s.alive && s.holder[k] !in s.pool
    && forall c :: HoldsConn(s, c, s.holder[k]) ==> s.clients[c].lock == k && MayHold(s.clients[c].at)
  }

  ghost predicate Inv(s: State) {
    && (forall c :: c in s.clients ==> ClientOk(s, c))
    && (forall k :: k in s.holder ==> LockOk(s, k))
    && (forall c, d, sid :: HoldsConn(s, c, sid) && HoldsConn(s, d, sid) ==> c == d)
    && (forall sid :: sid in s.pool || sid in s.alive ==> sid < s.sessions)
  }

  lemma StepKeepsClients(s: State, step: Step, c: ClientId)
    requires Inv(s) && Enabled(s, step) && c in s.clients
    ensures ClientOk(Next(s, step), c)
  {
    assert ClientOk(s, c);
    if step.Ask? || step.Unlock? || step.GiveBack? {
      assert ClientOk(s, step.c);
      var k := s.clients[c].lock;
      if k in s.holder {
        assert LockOk(s, k);
      }
      if s.clients[c].conn.Some? && c != step.c {
        assert HoldsConn(s, c, s.clients[c].conn.value);
        assert !HoldsConn(s, step.c, s.clients[c].conn.value);
      }
    }
  }

  lemma StepKeepsLocks(s: State, step: Step, k: Lock)
    requires Inv(s) && Enabled(s, step) && k in Next(s, step).holder
    ensures LockOk(Next(s, step), k)
  {
    var t := Next(s, step);
    var sid := t.holder[k];
    if k in s.holder && s.holder[k] == sid {
      assert LockOk(s, k);
      forall c | HoldsConn(t, c, sid) ensures t.clients[c].lock == k && MayHold(t.clients[c].at) {
        assert HoldsConn(s, c, sid);
        assert ClientOk(s, c);
      }
    } else {
      assert step.Ask?;
      assert ClientOk(s, step.c);
      forall c | HoldsConn(t, c, sid) ensures c == step.c {
        assert HoldsConn(s, c, sid) && HoldsConn(s, step.c, sid);
      }
    }
  }

  lemma StepKeepsOwners(s: State, step: Step)
    requires Inv(s) && Enabled(s, step)
    ensures forall c, d, sid :: HoldsConn(Next(s, step), c, sid) && HoldsConn(Next(s, step), d, sid) ==> c == d
  {
    var t := Next(s, step);
    forall c, d, sid | HoldsConn(t, c, sid) && HoldsConn(t, d, sid) ensures c == d {
      if step.Checkout? && sid == step.sid {
        forall e | e in s.clients ensures !HoldsConn(s, e, sid) {
          assert ClientOk(s, e);
        }
      } else {
        assert HoldsConn(s, c, sid) && HoldsConn(s, d, sid);
      }
    }
  }

  lemma StepKeepsInv(s: State, step: Step)
    requires Inv(s) && Enabled(s, step)
    ensures Inv(Next(s, step))
  {
    var t := Next(s, step);
    forall c | c in t.clients ensures ClientOk(t, c) {
      StepKeepsClients(s, step, c);
    }
    forall k | k in t.holder ensures LockOk(t, k) {
      StepKeepsLocks(s, step, k);
    }
    StepKeepsOwners(s, step);
    if step.GiveBack? {
      assert ClientOk(s, step.c);
    }
  }

  ghost predicate ValidRun(s: State, steps: seq<Step>)
    decreases |steps|
  {
    steps == [] || (Enabled(s, steps[0]) && ValidRun(Next(s, steps[0]), steps[1..]))
  }

  ghost function Run(s: State, steps: seq<Step>): State
    requires ValidRun(s, steps)
    decreases |steps|
  {
    if steps == [] then s else Run(Next(s, steps[0]), steps[1..])
  }

  lemma {:induction false} RunsKeepInv(s: State, steps: seq<Step>)
    requires Inv(s) && ValidRun(s, steps)
    ensures Inv(Run(s, steps))
    decreases |steps|
  {
    if steps != [] {
      StepKeepsInv(s, steps[0]);
      RunsKeepInv(Next(s, steps[0]), steps[1..]);
    }
  }

  /** Clients that have not begun, over an empty pool. */
  ghost predicate Initial(s: State) {
    s.alive == {} && s.holder == map[] && s.pool == {} && s.sessions == 0 &&
    forall c :: c in s.clients ==> s.clients[c].conn == None && s.clients[c].at == Away && !s.clients[c].acting
  }

  lemma InitialInv(s: State)
    requires Initial(s)
    ensures Inv(s)
  {
  }

  // ---------------------------------------------------------------------------
  // The promises
  // ---------------------------------------------------------------------------

  /** In every run no connection in the pool has an advisory lock, whatever path returned it. */
  lemma PoolIsClean(s: State, steps: seq<Step>, k: Lock, sid: Sid)
    requires Initial(s) && ValidRun(s, steps) && sid in Run(s, steps).pool
    ensures !(k in Run(s, steps).holder && Run(s, steps).holder[k] == sid)
  {
    InitialInv(s);
    RunsKeepInv(s, steps);
    if k in Run(s, steps).holder {
      assert LockOk(Run(s, steps), k);
    }
  }

  /**
   Exclusivity: in every run two clients that act under the same lock and whose
   sessions are both alive are the same client. For the leadership lock: two
   flagged nodes never both have live sessions.
   */
  lemma ActingIsExclusive(s: State, steps: seq<Step>, c: ClientId, d: ClientId)
    requires Initial(s) && ValidRun(s, steps)
    requires var t := Run(s, steps);
             && c in t.clients && d in t.clients && t.clients[c].acting && t.clients[d].acting
             && t.clients[c].lock == t.clients[d].lock
             && t.clients[c].conn.Some? && t.clients[c].conn.value in t.alive
             && t.clients[d].conn.Some? && t.clients[d].conn.value in t.alive
    ensures c == d
  {
    InitialInv(s);
    RunsKeepInv(s, steps);
    var t := Run(s, steps);
    assert ClientOk(t, c) && ClientOk(t, d);
    assert HoldsConn(t, c, t.clients[c].conn.value) && HoldsConn(t, d, t.clients[c].conn.value);
  }

  /** In every run a client that acts has a session of its own. */
  lemma ActingHasASession(s: State, steps: seq<Step>, c: ClientId)
    requires Initial(s) && ValidRun(s, steps) && c in Run(s, steps).clients && Run(s, steps).clients[c].acting
    ensures Run(s, steps).clients[c].conn.Some?
  {
    InitialInv(s);
    RunsKeepInv(s, steps);
    assert ClientOk(Run(s, steps), c);
  }

  /** A lock is given up only after its client stopped acting: no step but the session's death takes it away. */
  lemma LockOutlivesActing(s: State, step: Step, c: ClientId)
    requires Inv(s) && Enabled(s, step) && c in s.clients && s.clients[c].acting && s.clients[c].conn.Some?
    requires s.clients[c].conn.value in s.alive && step != Kill(s.clients[c].conn.value)
    ensures var x := s.clients[c];
            x.lock in Next(s, step).holder && Next(s, step).holder[x.lock] == x.conn.value
  {
    var x := s.clients[c];
    assert ClientOk(s, c);
    if step.Ask? || step.Unlock? {
      assert ClientOk(s, step.c);
      if step.c != c {
        assert HoldsConn(s, c, x.conn.value);
        assert !HoldsConn(s, step.c, x.conn.value);
      }
    }
  }

  /** A session never asks for a lock it already has, so one unlock always frees it. */
  lemma NoReentry(s: State, c: ClientId)
    requires Inv(s) && Enabled(s, Ask(c))
    ensures s.clients[c].lock in s.holder ==> s.holder[s.clients[c].lock] != s.clients[c].conn.value
  {
    var k := s.clients[c].lock;
    if k in s.holder && s.holder[k] == s.clients[c].conn.value {
      assert LockOk(s, k) && HoldsConn(s, c, s.holder[k]);
    }
  }

  // ---------------------------------------------------------------------------
  // Locks can be had
  // ---------------------------------------------------------------------------

  lemma First(s: State, step: Step, rest: seq<Step>)
    requires Enabled(s, step) && ValidRun(Next(s, step), rest)
    ensures ValidRun(s, [step] + rest) && Run(s, [step] + rest) == Run(Next(s, step), rest)
  {
    assert ([step] + rest)[1..] == rest;
  }

  predicate Holds(s: State, k: Lock, sid: Sid) { k in s.holder && s.holder[k] == sid }

  /** The client acts, on a live session of its own that has its lock. */
  predicate ActsOn(s: State, c: ClientId, sid: Sid) {
    && c in s.clients && s.clients[c].acting && s.clients[c].conn == Some(sid)
    && sid in s.alive && Holds(s, s.clients[c].lock, sid)
  }

  /** Opening a connection adds a live session to the pool that has no lock. */
  lemma OpenedIsUsable(s: State, k: Lock)
    requires Inv(s)
    ensures var t := Next(s, Open); s.sessions in t.pool && s.sessions in t.alive && !Holds(t, k, s.sessions)
  {
    if k in s.holder {
      assert LockOk(s, k);
    }
  }

  /** A free lock is won by the client that asks for it, on any live pooled session. */
  lemma FreeLockIsWon(s: State, c: ClientId, sid: Sid)
    requires c in s.clients && s.clients[c].at == Away && sid in s.pool && sid in s.alive
    requires s.clients[c].lock !in s.holder
    ensures var steps := [Checkout(c, sid), Ask(c), ReplyArrives(c), BeginActing(c)];
            && ValidRun(s, steps) && ActsOn(Run(s, steps), c, sid) && sid !in Run(s, steps).pool
            && forall d :: d in s.clients && d != c ==>
                 d in Run(s, steps).clients && Run(s, steps).clients[d] == s.clients[d]
  {
    var s1 := Next(s, Checkout(c, sid));
    var s2 := Next(s1, Ask(c));
    var s3 := Next(s2, ReplyArrives(c));
    First(s3, BeginActing(c), []);
    First(s2, ReplyArrives(c), [BeginActing(c)]);
    First(s1, Ask(c), [ReplyArrives(c)] + [BeginActing(c)]);
    First(s, Checkout(c, sid), [Ask(c)] + ([ReplyArrives(c)] + [BeginActing(c)]));
    assert [Checkout(c, sid)] + ([Ask(c)] + ([ReplyArrives(c)] + [BeginActing(c)]))
        == [Checkout(c, sid), Ask(c), ReplyArrives(c), BeginActing(c)];
  }

  /** A lock held by another session is refused, and the connection goes back to the pool as it came. */
  lemma HeldLockIsRefused(s: State, c: ClientId, sid: Sid)
    requires c in s.clients && s.clients[c].at == Away && sid in s.pool && sid in s.alive && !s.clients[c].acting
    requires s.clients[c].lock in s.holder && s.holder[s.clients[c].lock] != sid
    ensures var steps := [Checkout(c, sid), Ask(c), ReplyArrives(c), GiveBack(c)];
            && ValidRun(s, steps)
            && var t := Run(s, steps);
            t.holder == s.holder && sid in t.pool && c in t.clients && t.clients[c].at == Away && !t.clients[c].acting
  {
    var s1 := Next(s, Checkout(c, sid));
    var s2 := Next(s1, Ask(c));
    var s3 := Next(s2, ReplyArrives(c));
    First(s3, GiveBack(c), []);
    First(s2, ReplyArrives(c), [GiveBack(c)]);
    First(s1, Ask(c), [ReplyArrives(c)] + [GiveBack(c)]);
    First(s, Checkout(c, sid), [Ask(c)] + ([ReplyArrives(c)] + [GiveBack(c)]));
    assert [Checkout(c, sid)] + ([Ask(c)] + ([ReplyArrives(c)] + [GiveBack(c)]))
        == [Checkout(c, sid), Ask(c), ReplyArrives(c), GiveBack(c)];
  }

  /** A client that is done clears its flag first, then frees the lock and drops its connection. */
  lemma DoneFreesTheLock(s: State, c: ClientId, sid: Sid)
    requires Inv(s) && ActsOn(s, c, sid)
    ensures var steps := [EndActing(c), Unlock(c, true), Discard(c)];
            && ValidRun(s, steps)
            && var t := Run(s, steps);
            && t.holder == s.holder - {s.clients[c].lock} && t.pool == s.pool && t.alive == s.alive
            && t.clients == s.clients[c := Client(s.clients[c].lock, None, Away, false)]
  {
    assert ClientOk(s, c);
    var s1 := Next(s, EndActing(c));
    var s2 := Next(s1, Unlock(c, true));
    First(s2, Discard(c), []);
    First(s1, Unlock(c, true), [Discard(c)]);
    First(s, EndActing(c), [Unlock(c, true)] + [Discard(c)]);
    assert [EndActing(c)] + ([Unlock(c, true)] + [Discard(c)]) == [EndActing(c), Unlock(c, true), Discard(c)];
  }

  lemma {:induction false} RunConcat(s: State, a: seq<Step>, b: seq<Step>)
    requires ValidRun(s, a) && ValidRun(Run(s, a), b)
    ensures ValidRun(s, a + b) && Run(s, a + b) == Run(Run(s, a), b)
    decreases |a|
  {
    if a == [] {
      assert a + b == b;
    } else {
      RunConcat(Next(s, a[0]), a[1..], b);
      assert (a + b)[1..] == a[1..] + b;
    }
  }

  /** The lock changes hands: when one client is done, the next one that asks acts. */
  lemma LockChangesHands(s: State, c: ClientId, sid: Sid, d: ClientId, next: Sid) returns (steps: seq<Step>)
    requires Inv(s) && ActsOn(s, c, sid) && d in s.clients && d != c && s.clients[d].at == Away
    requires s.clients[d].lock == s.clients[c].lock && next in s.pool && next in s.alive
    ensures ValidRun(s, steps) && ActsOn(Run(s, steps), d, next)
    ensures c in Run(s, steps).clients && !Run(s, steps).clients[c].acting
  {
    var a := [EndActing(c), Unlock(c, true), Discard(c)];
    DoneFreesTheLock(s, c, sid);
    var t := Run(s, a);
    var b := [Checkout(d, next), Ask(d), ReplyArrives(d), BeginActing(d)];
    FreeLockIsWon(t, d, next);
    RunConcat(s, a, b);
    steps := a + b;
  }

  /** Wherever a client is, and whatever fails, it can give up: it stops acting and has no connection any more. */
  lemma ClientCanLeave(s: State, c: ClientId) returns (steps: seq<Step>)
    requires Inv(s) && c in s.clients
    ensures ValidRun(s, steps) && c in Run(s, steps).clients
    ensures Run(s, steps).clients[c] == Client(s.clients[c].lock, None, Away, false)
  {
    assert ClientOk(s, c);
    steps := [];
    if s.clients[c].at == Connected {
      First(s, GiveBack(c), []);
      steps := [GiveBack(c)];
    } else if s.clients[c].at != Away {
      var t := s;
      if s.clients[c].at != MustDiscard && s.clients[c].at != Leaving {
        var step := match s.clients[c].at
          case Won => Unusable(c)
          case Acting => EndActing(c)
          case _ => ReplyLost(c);
        t := Next(s, step);
        steps := [step];
      }
      First(t, Discard(c), []);
      if steps != [] {
        First(s, steps[0], [Discard(c)]);
      }
      steps := steps + [Discard(c)];
    }
  }

  /** The death of a session frees exactly its own locks, so that the next client can win them. */
  lemma DeathFreesTheLock(s: State, sid: Sid, k: Lock)
    requires sid in s.alive
    ensures var t := Next(s, Kill(sid));
            && sid !in t.alive && t.pool == s.pool && t.clients == s.clients
            && (k in t.holder <==> k in s.holder && s.holder[k] != sid)
            && (k in t.holder ==> t.holder[k] == s.holder[k])
  {
  }
}
