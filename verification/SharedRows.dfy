/** Guarded upserts: job snapshots keyed by version, warmup policies by revision. */
module SharedRows {
  import opened Text

  // ---------------------------------------------------------------------------
  // Management jobs
  // ---------------------------------------------------------------------------

  /** The columns a newer snapshot replaces. */
  datatype Content = Content(version: int, status: string, phase: string, terminal: bool,
                             result: Option<string>, error: Option<string>, owner: string, updated: int)

  datatype Snapshot = Snapshot(kind: string, tenant: string, created: int, content: Content)

  datatype Job = Job(kind: string, tenant: string, created: int, content: Content, expires: int, heartbeat: int)

  function SavedJob(row: Option<Job>, snap: Snapshot, ttl: int, now: int): Job {
    match row
    case None => Job(snap.kind, snap.tenant, snap.created, snap.content, now + ttl, now)
    case Some(j) =>
      if j.content.version < snap.content.version && j.kind == snap.kind
      then j.(content := snap.content, expires := now + ttl, heartbeat := now) else j
  }

  function TouchedJob(j: Job, owner: string, now: int): Job {
    if j.content.owner == owner && !j.content.terminal then j.(heartbeat := now) else j
  }

  /** What may happen to one job row; a sweep deletes it once it has expired. */
  datatype JobOp = Save(snap: Snapshot, ttl: int, now: int) | Touch(owner: string, now: int) | Sweep(now: int)

  function JobAfter(row: Option<Job>, op: JobOp): Option<Job> {
    match op
    case Save(snap, ttl, now) => Some(SavedJob(row, snap, ttl, now))
    case Touch(owner, now) => if row.Some? then Some(TouchedJob(row.value, owner, now)) else None
    case Sweep(now) => if row.Some? && row.value.expires > now then row else None
  }

  function JobAfterAll(ops: seq<JobOp>): Option<Job> {
    if ops == [] then None else JobAfter(JobAfterAll(ops[..|ops| - 1]), ops[|ops| - 1])
  }

  /** The operations since the row was last absent: since the last deletion, or all of them. */
  function SinceDeletion(ops: seq<JobOp>): (r: seq<JobOp>)
    ensures r == [] <==> JobAfterAll(ops).None?
  {
    if JobAfterAll(ops).None? then [] else SinceDeletion(ops[..|ops| - 1]) + [ops[|ops| - 1]]
  }

  /** They are the last operations, and without a sweep all but the heartbeats before the first save. */
  lemma {:induction false} SinceDeletionIsSuffix(ops: seq<JobOp>)
    ensures |SinceDeletion(ops)| <= |ops| && SinceDeletion(ops) == ops[|ops| - |SinceDeletion(ops)|..]
    ensures |SinceDeletion(ops)| < |ops| ==> JobAfterAll(ops[..|ops| - |SinceDeletion(ops)|]).None?
    decreases |ops|
  {
    if JobAfterAll(ops).Some? {
      var front := ops[..|ops| - 1];
      SinceDeletionIsSuffix(front);
      var k := |ops| - |SinceDeletion(ops)|;
      assert ops[k..] == front[k..] + [ops[|ops| - 1]];
      assert ops[..k] == front[..k];
    } else if ops != [] {
      assert ops[..|ops|] == ops;
    }
  }

  /** Operation `i` saves a snapshot of this kind. */
  ghost predicate Saves(ops: seq<JobOp>, i: int, kind: string) {
    0 <= i < |ops| && ops[i].Save? && ops[i].snap.kind == kind
  }

  /** The row holds a saved snapshot of its kind, and none of that kind is newer. */
  ghost predicate HoldsNewest(ops: seq<JobOp>, j: Job) {
    && (exists i :: Saves(ops, i, j.kind) && ops[i].snap.content == j.content)
    && (forall i :: Saves(ops, i, j.kind) ==> ops[i].snap.content.version <= j.content.version)
  }

  ghost predicate NoSaves(ops: seq<JobOp>) { forall i :: 0 <= i < |ops| ==> !ops[i].Save? }

  ghost predicate NoSweeps(ops: seq<JobOp>) { forall i :: 0 <= i < |ops| ==> !ops[i].Sweep? }

  lemma HoldsNewestStep(front: seq<JobOp>, row: Option<Job>, op: JobOp, j: Job)
    requires row.None? ==> NoSaves(front)
    requires row.Some? ==> HoldsNewest(front, row.value)
    requires JobAfter(row, op) == Some(j)
    ensures HoldsNewest(front + [op], j)
  {
    var ops := front + [op];
    forall i | Saves(ops, i, j.kind) ensures ops[i].snap.content.version <= j.content.version {
      if i < |front| {
        assert Saves(front, i, ops[i].snap.kind);
      }
    }
    if row.Some? && j.content == row.value.content {
      var i :| Saves(front, i, j.kind) && front[i].snap.content == j.content;
      assert Saves(ops, i, j.kind);
    } else {
      assert Saves(ops, |front|, j.kind);
    }
  }

  /**
   After any saves, heartbeats and sweeps the replaced columns are those of the
   highest version of the row's kind saved since the row was last deleted.
   */
  lemma {:induction false} NewestSnapshotWins(ops: seq<JobOp>)
    ensures JobAfterAll(ops).Some? ==> HoldsNewest(SinceDeletion(ops), JobAfterAll(ops).value)
    decreases |ops|
  {
    if JobAfterAll(ops).Some? {
      var front := ops[..|ops| - 1];
      NewestSnapshotWins(front);
      HoldsNewestStep(SinceDeletion(front), JobAfterAll(front), ops[|ops| - 1], JobAfterAll(ops).value);
    }
  }

  /** While nothing is swept, that is the highest version of all saves. */
  lemma {:induction false} NewestOfAllWithoutSweeps(ops: seq<JobOp>)
    requires NoSweeps(ops)
    ensures JobAfterAll(ops).None? <==> NoSaves(ops)
    ensures JobAfterAll(ops).Some? ==> HoldsNewest(ops, JobAfterAll(ops).value)
    decreases |ops|
  {
    if ops != [] {
      var front, op := ops[..|ops| - 1], ops[|ops| - 1];
      NewestOfAllWithoutSweeps(front);
      assert ops == front + [op];
      if JobAfterAll(ops).Some? {
        HoldsNewestStep(front, JobAfterAll(front), op, JobAfterAll(ops).value);
        var i :| Saves(ops, i, JobAfterAll(ops).value.kind);
        assert ops[i].Save?;
      } else {
        assert NoSaves(front) && op.Touch?;
      }
    }
  }

  /** Where the operations since the last deletion begin. */
  function LastAbsence(ops: seq<JobOp>): (k: int) { |ops| - |SinceDeletion(ops)| }

  /** A save before the last deletion that some save since then makes up for. */
  ghost predicate Superseded(ops: seq<JobOp>, k: int, i: int, kind: string)
    requires Saves(ops, i, kind)
  {
    exists m :: k <= m && Saves(ops, m, kind) && ops[m].snap.content.version >= ops[i].snap.content.version
  }

  /**
   Exactly when the newest snapshot wins over deletions: each save of the row's
   kind from before the last deletion has one since then that is at least as new.
   */
  lemma NewestOfAllIff(ops: seq<JobOp>)
    requires JobAfterAll(ops).Some?
    ensures var j, k := JobAfterAll(ops).value, LastAbsence(ops);
            HoldsNewest(ops, j) <==> forall i :: i < k && Saves(ops, i, j.kind) ==> Superseded(ops, k, i, j.kind)
  {
    NewestSnapshotWins(ops);
    SinceDeletionIsSuffix(ops);
    NewestOfSuffixIff(ops, LastAbsence(ops), JobAfterAll(ops).value);
  }

  lemma NewestOfSuffixIff(ops: seq<JobOp>, k: nat, j: Job)
    requires k <= |ops| && HoldsNewest(ops[k..], j)
    ensures HoldsNewest(ops, j) <==> forall i :: i < k && Saves(ops, i, j.kind) ==> Superseded(ops, k, i, j.kind)
  {
    var since := ops[k..];
    var m :| Saves(since, m, j.kind) && since[m].snap.content == j.content;
    assert ops[k + m] == since[m] && Saves(ops, k + m, j.kind);
    forall i | k <= i && Saves(ops, i, j.kind) ensures ops[i].snap.content.version <= j.content.version {
      assert since[i - k] == ops[i] && Saves(since, i - k, j.kind);
    }
    NewestByPosition(ops, j, k, k + m);
  }

  lemma NewestByPosition(ops: seq<JobOp>, j: Job, k: int, m: int)
    requires k <= m && Saves(ops, m, j.kind) && ops[m].snap.content == j.content
    requires forall i :: k <= i && Saves(ops, i, j.kind) ==> ops[i].snap.content.version <= j.content.version
    ensures HoldsNewest(ops, j) <==> forall i :: i < k && Saves(ops, i, j.kind) ==> Superseded(ops, k, i, j.kind)
  {
    forall i | i < k && Saves(ops, i, j.kind)
      ensures Superseded(ops, k, i, j.kind) <==> ops[i].snap.content.version <= j.content.version
    {
      if ops[i].snap.content.version <= j.content.version {
        assert Saves(ops, m, j.kind) && ops[m].snap.content.version >= ops[i].snap.content.version;
      }
    }
  }

  /** Deletion forgets the version: after it an older snapshot is stored again. */
  lemma OlderSnapshotReturns(newer: Snapshot, older: Snapshot, ttl: int, now: int)
    requires older.content.version < newer.content.version && older.kind == newer.kind
    ensures var ops := [Save(newer, ttl, now), Sweep(now + ttl), Save(older, ttl, now + ttl)];
            JobAfterAll(ops).Some? && JobAfterAll(ops).value.content == older.content
  {
    var ops := [Save(newer, ttl, now), Sweep(now + ttl), Save(older, ttl, now + ttl)];
    assert ops[..2] == [Save(newer, ttl, now), Sweep(now + ttl)] && ops[..2][..1] == [Save(newer, ttl, now)];
    assert ops[..2][..1][..0] == [];
    assert JobAfterAll(ops[..2][..1]) == Some(SavedJob(None, newer, ttl, now));
    assert JobAfterAll(ops[..2]) == None;
  }

  /** The snapshot is among the saves. */
  ghost predicate Saved(ops: seq<JobOp>, snap: Snapshot) {
    exists i :: 0 <= i < |ops| && ops[i].Save? && ops[i].snap == snap
  }

  /** All saves are of one kind. */
  ghost predicate OneKind(ops: seq<JobOp>, kind: string) {
    forall snap :: Saved(ops, snap) ==> snap.kind == kind
  }

  /** A version is written with one content only. */
  ghost predicate VersionsAreUnique(ops: seq<JobOp>) {
    forall s, t :: Saved(ops, s) && Saved(ops, t) && s.content.version == t.content.version ==> s.content == t.content
  }

  /** The content of the row was saved, and every snapshot saved since the last deletion is at most as new. */
  lemma RowIsNewestSave(ops: seq<JobOp>, kind: string) returns (snap: Snapshot)
    requires OneKind(SinceDeletion(ops), kind) && JobAfterAll(ops).Some?
    ensures Saved(SinceDeletion(ops), snap) && snap.content == JobAfterAll(ops).value.content
    ensures forall s :: Saved(SinceDeletion(ops), s) ==> s.content.version <= snap.content.version
  {
    NewestSnapshotWins(ops);
    var since := SinceDeletion(ops);
    var j := JobAfterAll(ops).value;
    var i :| Saves(since, i, j.kind) && since[i].snap.content == j.content;
    snap := since[i].snap;
    assert Saved(since, snap);
    forall s | Saved(since, s) ensures s.content.version <= snap.content.version {
      var k :| 0 <= k < |since| && since[k].Save? && since[k].snap == s;
      assert Saves(since, k, j.kind);
    }
  }

  /**
   Any order and any repetition of the same snapshots, saved since the last
   deletion, ends with the same replaced columns.
   */
  lemma SaveOrderDoesNotMatter(a: seq<JobOp>, b: seq<JobOp>, kind: string)
    requires JobAfterAll(a).Some?
    requires OneKind(SinceDeletion(a), kind) && VersionsAreUnique(SinceDeletion(a))
    requires forall snap :: Saved(SinceDeletion(a), snap) <==> Saved(SinceDeletion(b), snap)
    ensures JobAfterAll(b).Some? && JobAfterAll(b).value.content == JobAfterAll(a).value.content
  {
    var sa := RowIsNewestSave(a, kind);
    assert Saved(SinceDeletion(b), sa);
    var sb := RowIsNewestSave(b, kind);
    assert Saved(SinceDeletion(a), sb);
  }

  /** `Get`: the row a reader is shown, which must be of the kind asked for and not expired. */
  function Shown(rows: map<string, Job>, kind: string, id: string, now: int): Option<Job> {
    if id in rows && rows[id].kind == kind && rows[id].expires > now then Some(rows[id]) else None
  }

  class ManagementJobs {
    var rows: map<string, Job>

    constructor ()
      ensures rows == map[]
    {
      rows := map[];
    }

    function RowOf(id: string): Option<Job>
      reads this
    {
      if id in rows then Some(rows[id]) else None
    }

    method SaveSnapshot(id: string, snap: Snapshot, ttl: int, now: int)
      modifies this
      ensures RowOf(id) == JobAfter(old(RowOf(id)), Save(snap, ttl, now))
      ensures id in rows && rows.Keys == old(rows).Keys + {id} && forall k :: k in old(rows) && k != id ==>
              rows[k] == old(rows)[k]
      ensures id in old(rows) ==> rows[id].content.version >= old(rows)[id].content.version
      ensures id in old(rows) ==> rows[id].kind == old(rows)[id].kind && rows[id].tenant == old(rows)[id].tenant
                                  && rows[id].created == old(rows)[id].created
      ensures id in old(rows) && (old(rows)[id].content.version >= snap.content.version
              || old(rows)[id].kind != snap.kind) ==>
                rows == old(rows)
      ensures rows[id].kind == snap.kind ==> rows[id].content.version >= snap.content.version
      ensures id !in old(rows) ==> rows[id] == Job(snap.kind, snap.tenant, snap.created, snap.content, now + ttl, now)
      ensures id in old(rows) && old(rows)[id].kind == snap.kind
              && old(rows)[id].content.version < snap.content.version ==>
                rows[id] == old(rows)[id].(content := snap.content, expires := now + ttl, heartbeat := now)
      ensures rows != old(rows) && ttl > 0 ==> Shown(rows, snap.kind, id, now).Some? && rows[id].content == snap.content
    {
      rows := rows[id := SavedJob(RowOf(id), snap, ttl, now)];
    }

    /** Heartbeats each listed job that this owner has not finished. */
    method TouchAll(owner: string, ids: seq<string>, now: int)
      modifies this
      ensures rows.Keys == old(rows).Keys
      ensures forall id :: id in rows ==>
                rows[id] == if id in ids && old(rows)[id].content.owner == owner && !old(rows)[id].content.terminal
                            then old(rows)[id].(heartbeat := now) else old(rows)[id]
    {
      for i := 0 to |ids|
        invariant rows.Keys == old(rows).Keys
        invariant forall id :: id in rows ==>
                    rows[id] == if id in ids[..i] then TouchedJob(old(rows)[id], owner, now) else old(rows)[id]
      {
        if ids[i] in rows {
          rows := rows[ids[i] := TouchedJob(rows[ids[i]], owner, now)];
        }
        assert ids[..i + 1] == ids[..i] + [ids[i]];
      }
      assert ids[..|ids|] == ids;
    }

    method SweepExpired(now: int)
      modifies this
      ensures forall id :: id in rows <==> id in old(rows) && old(rows)[id].expires > now
      ensures forall id :: id in rows ==> rows[id] == old(rows)[id]
      ensures forall kind, id, t :: now <= t ==> Shown(rows, kind, id, t) == Shown(old(rows), kind, id, t)
    {
      rows := map id | id in rows && rows[id].expires > now :: rows[id];
    }
  }

  // ---------------------------------------------------------------------------
  // Warmup policies
  // ---------------------------------------------------------------------------

  /** What the operator chose, and the scheduler's bookkeeping. */
  datatype Policy = Policy(choice: string, bookkeeping: string)

  datatype Stored = Stored(policy: Policy, revision: nat)

  function Edited(row: Option<Stored>, p: Policy): Stored {
    match row
    case None => Stored(p, 1)
    case Some(r) => Stored(p, r.revision + 1)
  }

  function WrittenBack(row: Option<Stored>, p: Policy, revision: nat): Option<Stored> {
    if row.Some? && row.value.revision == revision then Some(row.value.(policy := p)) else row
  }

  class WarmupPolicies {
    var rows: map<string, Stored>
    /** What operators chose for each policy, oldest first. */
    ghost var edits: map<string, seq<string>>

    /** Every stored policy carries its operator's last choice. */
    ghost predicate Valid()
      reads this
    {
      rows.Keys == edits.Keys &&
      forall id :: id in rows ==>
        rows[id].revision == |edits[id]| > 0 && rows[id].policy.choice == edits[id][|edits[id]| - 1]
    }

    /** `p` is bookkeeping on a copy of the policy as it was read at `revision`. */
    ghost predicate FromCopy(id: string, p: Policy, revision: nat)
      reads this
    {
      id in edits && 1 <= revision <= |edits[id]| && p.choice == edits[id][revision - 1]
    }

    constructor ()
      ensures Valid() && rows == map[]
    {
      rows, edits := map[], map[];
    }

    function RowOf(id: string): Option<Stored>
      reads this
    {
      if id in rows then Some(rows[id]) else None
    }

    method SavePolicy(id: string, p: Policy) returns (revision: nat)
      modifies this
      ensures old(Valid()) ==> Valid()
      ensures edits == old(edits)[id := (if id in old(edits) then old(edits)[id] else []) + [p.choice]]
      ensures id in rows && rows[id] == Stored(p, revision) && rows.Keys == old(rows).Keys + {id}
      ensures forall k :: k in old(rows) && k != id ==> rows[k] == old(rows)[k]
      ensures revision >= 1 && RowOf(id) == Some(Edited(old(RowOf(id)), p))
      ensures id in old(rows) ==> revision > old(rows)[id].revision
      ensures forall q, r: nat :: r < revision ==> WrittenBack(RowOf(id), q, r) == RowOf(id)
    {
      revision := if id in rows then rows[id].revision + 1 else 1;
      rows := rows[id := Stored(p, revision)];
      edits := edits[id := (if id in edits then edits[id] else []) + [p.choice]];
    }

    /** A write-back computed from any copy, however old, leaves every operator choice in place. */
    method SaveRunState(id: string, p: Policy, revision: nat) returns (wrote: bool)
      modifies this`rows
      ensures old(Valid()) && FromCopy(id, p, revision) ==> Valid()
      ensures RowOf(id) == WrittenBack(old(RowOf(id)), p, revision)
      ensures wrote <==> old(RowOf(id)).Some? && old(RowOf(id)).value.revision == revision
      ensures forall k :: k != id ==> RowOf(k) == old(RowOf(k))
      ensures !wrote ==> rows == old(rows)
      ensures wrote ==> rows[id] == Stored(p, old(rows)[id].revision)
      ensures forall k :: k in rows <==> k in old(rows)
    {
      wrote := id in rows && rows[id].revision == revision;
      if wrote {
        rows := rows[id := rows[id].(policy := p)];
      }
    }
  }

  /** Operators edit, schedulers read a copy and later write bookkeeping back from that copy. */
  datatype PolicyState = PolicyState(row: Option<Stored>, copies: map<nat, Stored>, edits: seq<string>)

  datatype PolicyStep =
    | Edit(p: Policy)
    | Read(w: nat)
    | WriteBack(w: nat, bookkeeping: string)

  predicate PolicyEnabled(s: PolicyState, step: PolicyStep) {
    match step
    case Edit(_) => true
    case Read(_) => s.row.Some?
    case WriteBack(w, _) => w in s.copies
  }

  function PolicyNext(s: PolicyState, step: PolicyStep): PolicyState
    requires PolicyEnabled(s, step)
  {
    match step
    case Edit(p) => s.(row := Some(Edited(s.row, p)), edits := s.edits + [p.choice])
    case Read(w) => s.(copies := s.copies[w := s.row.value])
    case WriteBack(w, b) => s.(row := WrittenBack(s.row, s.copies[w].policy.(bookkeeping := b), s.copies[w].revision))
  }

  /** Revision `r` carries the operator's `r`-th choice. */
  ghost predicate Carries(s: PolicyState, x: Stored) {
    1 <= x.revision <= |s.edits| && x.policy.choice == s.edits[x.revision - 1]
  }

  ghost predicate PolicyInv(s: PolicyState) {
    && (s.row.None? ==> s.edits == [])
    && (s.row.Some? ==> Carries(s, s.row.value) && s.row.value.revision == |s.edits|)
    && (forall w :: w in s.copies ==> Carries(s, s.copies[w]))
  }

  ghost predicate PolicyRun(s: PolicyState, steps: seq<PolicyStep>)
    decreases |steps|
  {
    steps == [] || (PolicyEnabled(s, steps[0]) && PolicyRun(PolicyNext(s, steps[0]), steps[1..]))
  }

  ghost function PolicyAfter(s: PolicyState, steps: seq<PolicyStep>): PolicyState
    requires PolicyRun(s, steps)
    decreases |steps|
  {
    if steps == [] then s else PolicyAfter(PolicyNext(s, steps[0]), steps[1..])
  }

  /**
   In every interleaving the stored policy carries the last operator edit: a
   write-back computed before an edit never overwrites it.
   */
  lemma {:induction false} LastEditSurvives(s: PolicyState, steps: seq<PolicyStep>)
    requires PolicyInv(s) && PolicyRun(s, steps)
    ensures var t := PolicyAfter(s, steps);
            PolicyInv(t) && (t.row.Some? ==> t.row.value.policy.choice == t.edits[|t.edits| - 1])
    decreases |steps|
  {
    if steps != [] {
      var n := PolicyNext(s, steps[0]);
      if steps[0].Edit? {
        forall w | w in n.copies ensures Carries(n, n.copies[w]) {
          assert Carries(s, s.copies[w]);
        }
      }
      LastEditSurvives(n, steps[1..]);
    }
  }
}
