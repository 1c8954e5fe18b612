/**
 Collection versions: every write bumps a counter under compare-and-swap and is
 announced in the transaction that makes it. The row a transaction bumps stays
 locked until that transaction ends.
 */
module CollectionVersions {
  /** A (domain, tenant) pair, normalised. */
  datatype Collection = Collection(domain: string, tenant: string)

  type TxId = nat

  datatype BumpResult = Bumped(version: nat) | Conflict(current: nat)

  /** `BumpTx` on a row at `current` (0 when there is no row): a negative expectation is no check. */
  function Bump(current: nat, expected: int): BumpResult {
    if expected < 0 then Bumped(current + 1)
    else if expected == 0 then (if current == 0 then Bumped(1) else Conflict(current))
    else if current == expected then Bumped(current + 1)
    else Conflict(current)
  }

  /** A write without expectation, or with the right one, gets the next version; every other is told the current one. */
  lemma BumpMeans(current: nat, expected: int)
    ensures Bump(current, expected) ==
            if expected < 0 || expected == current then Bumped(current + 1) else Conflict(current)
  {
  }

  datatype Phase = Begun | Holds(version: nat) | Announcing(version: nat) | Refused(current: nat)

  datatype Tx = Tx(coll: Collection, expected: int, phase: Phase)

  /** A committed write. */
  datatype Write = Write(coll: Collection, version: nat, expected: int)

  datatype Announcement = Announcement(coll: Collection, version: nat)

  /** `active` is cluster mode: only then are writes announced. */
  datatype State = State(active: bool, rows: map<Collection, nat>, locks: map<Collection, TxId>,
                         txs: map<TxId, Tx>, log: seq<Write>, announced: seq<Announcement>)

  function Initial(active: bool): State { State(active, map[], map[], map[], [], []) }

  function RowVersion(s: State, c: Collection): nat { if c in s.rows then s.rows[c] else 0 }

  datatype Step =
    | Begin(t: TxId, coll: Collection, expected: int)
    | BumpRow(t: TxId)
    | Publish(t: TxId)
    | Commit(t: TxId)
    | Rollback(t: TxId)

  predicate Enabled(s: State, step: Step) {
    match step
    case Begin(t, _, _) => t !in s.txs
    case BumpRow(t) => t in s.txs && s.txs[t].phase == Begun && s.txs[t].coll !in s.locks
    case Publish(t) => t in s.txs && s.txs[t].phase.Holds? && s.active
    case Commit(t) => t in s.txs && (if s.active then s.txs[t].phase.Announcing? else s.txs[t].phase.Holds?)
    case Rollback(t) => t in s.txs
  }

  /** A transaction that ends gives up its row lock. */
  function Unlocked(s: State, t: TxId): map<Collection, TxId> {
    map c | c in s.locks && s.locks[c] != t :: s.locks[c]
  }

  function Next(s: State, step: Step): State
    requires Enabled(s, step)
  {
    match step
    case Begin(t, c, e) => s.(txs := s.txs[t := Tx(c, e, Begun)])
    case BumpRow(t) =>
      var tx := s.txs[t];
      (match Bump(RowVersion(s, tx.coll), tx.expected)
       case Bumped(v) => s.(txs := s.txs[t := tx.(phase := Holds(v))], locks := s.locks[tx.coll := t])
       case Conflict(v) => s.(txs := s.txs[t := tx.(phase := Refused(v))]))
    case Publish(t) => s.(txs := s.txs[t := s.txs[t].(phase := Announcing(s.txs[t].phase.version))])
    case Commit(t) =>
      var tx := s.txs[t];
      s.(rows := s.rows[tx.coll := tx.phase.version],
         locks := Unlocked(s, t),
         txs := s.txs - {t},
         log := s.log + [Write(tx.coll, tx.phase.version, tx.expected)],
         announced := if s.active then s.announced + [Announcement(tx.coll, tx.phase.version)] else s.announced)
    case Rollback(t) => s.(locks := Unlocked(s, t), txs := s.txs - {t})
  }

  /** The versions committed to one collection, in commit order. */
  function History(log: seq<Write>, c: Collection): seq<nat> {
    if log == [] then []
    else
      var h := History(log[..|log| - 1], c);
      if log[|log| - 1].coll == c then h + [log[|log| - 1].version] else h
  }

  /** The announcements of a sequence of writes. */
  function Announcements(log: seq<Write>): seq<Announcement> {
    seq(|log|, i requires 0 <= i < |log| => Announcement(log[i].coll, log[i].version))
  }

  /** 1, 2, 3, … without gaps. */
  predicate Gapless(h: seq<nat>) { forall i :: 0 <= i < |h| ==> h[i] == i + 1 }

  ghost predicate TxOk(s: State, t: TxId)
    requires t in s.txs
  {
    var tx := s.txs[t];
    tx.phase.Holds? || tx.phase.Announcing? ==>
      && tx.coll in s.locks && s.locks[tx.coll] == t
      && tx.phase.version == RowVersion(s, tx.coll) + 1
      && (tx.expected >= 0 ==> tx.phase.version == tx.expected + 1)
  }

  /** A locked row belongs to a transaction under way that has bumped it. */
  ghost predicate LockOk(s: State, c: Collection)
    requires c in s.locks
  {
    var t := s.locks[c];
    t in s.txs && s.txs[t].coll == c && (s.txs[t].phase.Holds? || s.txs[t].phase.Announcing?)
  }

  ghost predicate Inv(s: State) {
    && (forall c :: Gapless(History(s.log, c)) && |History(s.log, c)| == RowVersion(s, c))
    && (forall t :: t in s.txs ==> TxOk(s, t))
    && (forall c :: c in s.locks ==> LockOk(s, c))
    && (forall i :: 0 <= i < |s.log| && s.log[i].expected >= 0 ==> s.log[i].version == s.log[i].expected + 1)
    && s.announced == (if s.active then Announcements(s.log) else [])
  }

  lemma StepKeepsInv(s: State, step: Step)
    requires Inv(s) && Enabled(s, step)
    ensures Inv(Next(s, step))
  {
    if step.Commit? {
      CommitKeepsInv(s, step.t);
    } else {
      var n := Next(s, step);
      assert n.log == s.log && n.rows == s.rows && n.announced == s.announced && n.active == s.active;
      forall u | u in n.txs ensures TxOk(n, u) {
        OtherStepKeepsTx(s, step, u);
      }
      forall c ensures Gapless(History(n.log, c)) && |History(n.log, c)| == RowVersion(n, c) {
        assert Gapless(History(s.log, c)) && |History(s.log, c)| == RowVersion(s, c);
      }
      forall c | c in n.locks ensures LockOk(n, c) {
        StepKeepsLock(s, step, c);
      }
    }
  }

  /** A transaction that ends takes its locks with it, so none is left behind. */
  lemma StepKeepsLock(s: State, step: Step, c: Collection)
    requires forall d :: d in s.locks ==> LockOk(s, d)
    requires Enabled(s, step) && c in Next(s, step).locks
    ensures LockOk(Next(s, step), c)
  {
    if c in s.locks {
      assert LockOk(s, c);
    }
  }

  /** The row lock keeps every other writer of the collection out. */
  lemma OtherStepKeepsTx(s: State, step: Step, u: TxId)
    requires forall t :: t in s.txs ==> TxOk(s, t)
    requires Enabled(s, step) && !step.Commit? && u in Next(s, step).txs
    ensures TxOk(Next(s, step), u)
  {
    if u in s.txs {
      assert TxOk(s, u);
    }
  }

  lemma CommitKeepsHistory(s: State, t: TxId, c: Collection)
    requires Inv(s) && Enabled(s, Commit(t))
    ensures var n := Next(s, Commit(t)); Gapless(History(n.log, c)) && |History(n.log, c)| == RowVersion(n, c)
  {
    var n := Next(s, Commit(t));
    assert TxOk(s, t) && n.log[..|n.log| - 1] == s.log;
    assert Gapless(History(s.log, c)) && |History(s.log, c)| == RowVersion(s, c);
  }

  lemma CommitKeepsTx(s: State, t: TxId, u: TxId)
    requires Inv(s) && Enabled(s, Commit(t)) && u in Next(s, Commit(t)).txs
    ensures TxOk(Next(s, Commit(t)), u)
  {
    assert TxOk(s, t) && TxOk(s, u);
  }

  lemma CommitKeepsAnnouncements(s: State, t: TxId)
    requires Inv(s) && Enabled(s, Commit(t))
    ensures var n := Next(s, Commit(t)); n.announced == if n.active then Announcements(n.log) else []
  {
    var tx, n := s.txs[t], Next(s, Commit(t));
    assert Announcements(n.log) == Announcements(s.log) + [Announcement(tx.coll, tx.phase.version)];
  }

  lemma CommitKeepsInv(s: State, t: TxId)
    requires Inv(s) && Enabled(s, Commit(t))
    ensures Inv(Next(s, Commit(t)))
  {
    var n := Next(s, Commit(t));
    assert TxOk(s, t);
    forall c ensures Gapless(History(n.log, c)) && |History(n.log, c)| == RowVersion(n, c) {
      CommitKeepsHistory(s, t, c);
    }
    forall u | u in n.txs ensures TxOk(n, u) {
      CommitKeepsTx(s, t, u);
    }
    forall c | c in n.locks ensures LockOk(n, c) {
      StepKeepsLock(s, Commit(t), c);
    }
    CommitKeepsAnnouncements(s, t);
  }

  ghost predicate ValidRun(s: State, steps: seq<Step>)
    decreases |steps|
  {
    steps == [] || (Enabled(s, steps[0]) && ValidRun(Next(s, steps[0]), steps[1..]))
  }

  ghost function Run(s: State, steps: seq<Step>): State
    requires ValidRun(s, steps)
    decreases |steps|
  {
    if steps == [] then s else Run(Next(s, steps[0]), steps[1..])
  }

  lemma {:induction false} RunsKeepInv(s: State, steps: seq<Step>)
    requires Inv(s) && ValidRun(s, steps)
    ensures Inv(Run(s, steps)) && Run(s, steps).active == s.active
    decreases |steps|
  {
    if steps != [] {
      StepKeepsInv(s, steps[0]);
      RunsKeepInv(Next(s, steps[0]), steps[1..]);
    }
  }

  lemma InitialInv(active: bool)
    ensures Inv(Initial(active))
  {
    assert Announcements([]) == [];
  }

  /**
   In every interleaving of writers, the committed versions of a collection are
   1, 2, 3, … up to its row; a write with an expectation commits only directly
   after the version it expected; and in cluster mode exactly the committed
   versions are announced, in commit order.
   */
  lemma HistoryIsGapless(active: bool, steps: seq<Step>, c: Collection)
    requires ValidRun(Initial(active), steps)
    ensures var t := Run(Initial(active), steps);
            && |History(t.log, c)| == RowVersion(t, c)
            && (forall i :: 0 <= i < |History(t.log, c)| ==> History(t.log, c)[i] == i + 1)
            && (forall i :: 0 <= i < |t.log| && t.log[i].expected >= 0 ==>
                  t.log[i].version == t.log[i].expected + 1 == |History(t.log[..i], t.log[i].coll)| + 1)
            && t.announced == (if active then Announcements(t.log) else [])
  {
    InitialInv(active);
    RunsKeepInv(Initial(active), steps);
    var t := Run(Initial(active), steps);
    assert Gapless(History(t.log, c));
    forall i | 0 <= i < |t.log| && t.log[i].expected >= 0
      ensures t.log[i].version == |History(t.log[..i], t.log[i].coll)| + 1
    {
      HistoryIndex(t.log, i);
      assert Gapless(History(t.log, t.log[i].coll));
    }
  }

  lemma First(s: State, step: Step, rest: seq<Step>)
    requires Enabled(s, step) && ValidRun(Next(s, step), rest)
    ensures ValidRun(s, [step] + rest) && Run(s, [step] + rest) == Run(Next(s, step), rest)
  {
    assert ([step] + rest)[1..] == rest;
  }

  /** What a new transaction does to write: announce itself only in cluster mode. */
  function Writing(active: bool, t: TxId, c: Collection, expected: int): seq<Step> {
    [Begin(t, c, expected), BumpRow(t)] + (if active then [Publish(t), Commit(t)] else [Commit(t)])
  }

  /**
   A writer succeeds: on a row nobody has locked, a write without expectation or
   with the right one commits the next version and is announced in cluster mode.
   */
  lemma WriterCanCommit(s: State, t: TxId, c: Collection, expected: int)
    requires t !in s.txs && c !in s.locks && (expected < 0 || expected == RowVersion(s, c))
    ensures var steps, v := Writing(s.active, t, c, expected), RowVersion(s, c) + 1;
            && ValidRun(s, steps)
            && var e := Run(s, steps);
            && RowVersion(e, c) == v && e.log == s.log + [Write(c, v, expected)] && c !in e.locks
            && e.announced == s.announced + (if s.active then [Announcement(c, v)] else [])
  {
    BumpMeans(RowVersion(s, c), expected);
    var s1 := Next(s, Begin(t, c, expected));
    var s2 := Next(s1, BumpRow(t));
    var s3 := if s.active then Next(s2, Publish(t)) else s2;
    First(s3, Commit(t), []);
    var rest := [Commit(t)];
    if s.active {
      First(s2, Publish(t), rest);
      rest := [Publish(t)] + rest;
      assert rest == [Publish(t), Commit(t)];
    }
    First(s1, BumpRow(t), rest);
    First(s, Begin(t, c, expected), [BumpRow(t)] + rest);
    assert [Begin(t, c, expected)] + ([BumpRow(t)] + rest) == Writing(s.active, t, c, expected);
  }

  /** A writer that comes too late is refused with the version it should have known, and leaves no lock. */
  lemma WriterIsRefused(s: State, t: TxId, c: Collection, expected: int)
    requires t !in s.txs && c !in s.locks && expected >= 0 && expected != RowVersion(s, c)
    ensures var steps := [Begin(t, c, expected), BumpRow(t)];
            && ValidRun(s, steps) && t in Run(s, steps).txs
            && Run(s, steps).txs[t].phase == Refused(RowVersion(s, c))
            && Run(s, steps).locks == s.locks && Run(s, steps).rows == s.rows
  {
    BumpMeans(RowVersion(s, c), expected);
    var s1 := Next(s, Begin(t, c, expected));
    First(s1, BumpRow(t), []);
    First(s, Begin(t, c, expected), [BumpRow(t)]);
    assert [Begin(t, c, expected)] + [BumpRow(t)] == [Begin(t, c, expected), BumpRow(t)];
  }

  /** A rolled-back transaction changes no row and announces nothing. */
  lemma RollbackLeavesNothing(s: State, t: TxId, c: Collection)
    requires Inv(s) && t in s.txs && c in s.locks && s.locks[c] == t
    ensures var n := Next(s, Rollback(t));
            n.rows == s.rows && n.log == s.log && n.announced == s.announced && t !in n.txs && c !in n.locks
  {
  }

  /** Two writers that expect the same version never both commit. */
  lemma ExpectedVersionWinsOnce(active: bool, steps: seq<Step>, i: nat, j: nat)
    requires ValidRun(Initial(active), steps)
    requires var log := Run(Initial(active), steps).log;
             i < j < |log| && log[i].coll == log[j].coll && log[i].expected >= 0 && log[j].expected >= 0
    ensures var log := Run(Initial(active), steps).log; log[i].expected != log[j].expected
  {
    var log := Run(Initial(active), steps).log;
    HistoryIsGapless(active, steps, log[i].coll);
    HistoryGrows(log, log[i].coll, i, j);
  }

  /** Write `i` stands in its collection's history after the earlier writes of that collection. */
  lemma {:induction false} HistoryIndex(log: seq<Write>, i: nat)
    requires i < |log|
    ensures var k := |History(log[..i], log[i].coll)|;
            k < |History(log, log[i].coll)| && History(log, log[i].coll)[k] == log[i].version
    decreases |log|
  {
    var front := log[..|log| - 1];
    if i < |log| - 1 {
      HistoryIndex(front, i);
      assert front[..i] == log[..i];
    } else {
      assert log[..i] == front;
    }
  }

  lemma {:induction false} HistoryGrows(log: seq<Write>, c: Collection, i: nat, j: nat)
    requires i < j <= |log| && log[i].coll == c
    ensures |History(log[..i], c)| < |History(log[..j], c)|
    decreases j
  {
    assert log[..j][..j - 1] == log[..j - 1];
    if i < j - 1 {
      HistoryGrows(log, c, i, j - 1);
    }
  }

  // ---------------------------------------------------------------------------
  // One writer alone
  // ---------------------------------------------------------------------------

  datatype Result = Ok(version: nat) | VersionConflict(expected: int, current: nat) | Failed

  class Store {
    const active: bool
    var rows: map<Collection, nat>
    var announced: seq<Announcement>

    ghost predicate Valid()
      reads this
    {
      forall c :: c in rows ==> rows[c] > 0
    }

    constructor (active: bool)
      ensures Valid() && this.active == active && rows == map[] && announced == []
    {
      this.active := active;
      rows, announced := map[], [];
    }

    function VersionOf(c: Collection): nat
      reads this
    {
      if c in rows then rows[c] else 0
    }

    /**
     `WriteCollection`: bump, body, announce, commit. A refused or failed write
     leaves neither a version nor an announcement behind.
     */
    method WriteCollection(c: Collection, expected: int, bodyOk: bool, commitOk: bool) returns (r: Result)
      requires Valid()
      modifies this
      ensures Valid()
      ensures r.VersionConflict? <==> expected >= 0 && expected != old(VersionOf(c))
      ensures r.VersionConflict? ==> r.expected == expected && r.current == old(VersionOf(c))
      ensures r.Ok? <==> !r.VersionConflict? && bodyOk && commitOk
      ensures r.Ok? ==> r.version == old(VersionOf(c)) + 1
      ensures rows == if r.Ok? then old(rows)[c := r.version] else old(rows)
      ensures announced == if r.Ok? && active then old(announced) + [Announcement(c, r.version)] else old(announced)
    {
      var version: nat := VersionOf(c);
      if expected < 0 {
        version := version + 1;
      } else if expected == 0 {
        if c in rows { return VersionConflict(expected, rows[c]); }
        version := 1;
      } else {
        if version != expected { return VersionConflict(expected, version); }
        version := version + 1;
      }
      if !bodyOk { return Failed; }
      var queued := if active then [Announcement(c, version)] else [];
      if !commitOk { return Failed; }
      rows := rows[c := version];
      announced := announced + queued;
      r := Ok(version);
    }
  }
}
