/**
 Deterministic stable IDs for provider entries. UUID parsing and derivation are
 parameters with the laws the code relies on.
 */
module StableIds {
  import opened Text

  /** `parse` gives the canonical form of a valid ID; `derive(name, n)` is the n-th ID tried for a name. */
  datatype Uuids = Uuids(parse: string -> Option<string>, derive: (string, nat) -> string) {

    /** A canonical ID is its own canonical form. */
    ghost predicate Canonical(id: string) { parse(id) == Some(id) && TrimSpace(id) == id }

    /** Parsing yields canonical forms, and so does derivation. */
    ghost predicate Lawful() {
      && (forall s :: parse(s).Some? ==> Canonical(parse(s).value))
      && (forall name, n :: Canonical(derive(name, n)))
    }

    /** The attempts for a name up to number `limit` give different IDs. */
    ghost predicate Varied(name: string, limit: nat) {
      forall m, n :: 0 <= m < n <= limit ==> derive(name, m) != derive(name, n)
    }

    ghost predicate AllVaried(names: seq<string>, limit: nat) {
      forall i :: 0 <= i < |names| ==> Varied(names[i], limit)
    }

    // -------------------------------------------------------------------------
    // The retry loop
    // -------------------------------------------------------------------------

    /** Some attempt is free, which is exactly when the retry loop ends. */
    ghost predicate Ends(seen: set<string>, name: string) { exists n: nat :: derive(name, n) !in seen }

    function Tried(name: string, n: nat): set<string> { set i | 0 <= i < n :: derive(name, i) }

    lemma {:induction false} TriedSize(name: string, n: nat, limit: nat)
      requires Varied(name, limit) && n <= limit + 1
      ensures |Tried(name, n)| == n
      decreases n
    {
      if n > 0 {
        TriedSize(name, n - 1, limit);
        var x := derive(name, n - 1);
        assert x !in Tried(name, n - 1);
        assert Tried(name, n) == Tried(name, n - 1) + {x};
      } else {
        assert Tried(name, 0) == {};
      }
    }

    static lemma {:induction false} SubsetSize(a: set<string>, b: set<string>)
      requires a <= b
      ensures |a| <= |b|
      decreases a
    {
      if a != {} {
        var x :| x in a;
        SubsetSize(a - {x}, b - {x});
      }
    }

    /** Pigeonhole: of one attempt more than `seen` has members, one is free. */
    lemma FreeWithinSeen(seen: set<string>, name: string) returns (n: nat)
      requires Varied(name, |seen|)
      ensures n <= |seen| && derive(name, n) !in seen && Ends(seen, name)
    {
      TriedSize(name, |seen| + 1, |seen|);
      if Tried(name, |seen| + 1) <= seen {
        SubsetSize(Tried(name, |seen| + 1), seen);
      }
      var x :| x in Tried(name, |seen| + 1) && x !in seen;
      n :| 0 <= n < |seen| + 1 && derive(name, n) == x;
    }

    /** The first free ID from attempt `n` on, given one that is free. */
    ghost function FirstFrom(seen: set<string>, name: string, n: nat, free: nat): string
      requires n <= free && derive(name, free) !in seen
      decreases free - n
    {
      if derive(name, n) !in seen then derive(name, n) else FirstFrom(seen, name, n + 1, free)
    }

    /** The ID the retry loop ends with; no ID when it does not end. */
    ghost function FirstFree(seen: set<string>, name: string): string {
      if Ends(seen, name) then
        var free: nat :| derive(name, free) !in seen;
        FirstFrom(seen, name, 0, free)
      else ""
    }

    lemma {:induction false} FirstFromIs(seen: set<string>, name: string, n: nat, free: nat, k: nat)
      requires n <= free && derive(name, free) !in seen
      requires n <= k && derive(name, k) !in seen && forall m :: n <= m < k ==> derive(name, m) in seen
      ensures FirstFrom(seen, name, n, free) == derive(name, k)
      decreases k - n
    {
      if n < k {
        FirstFromIs(seen, name, n + 1, free, k);
      }
    }

    /** It is the first attempt that is free. */
    lemma FirstFreeIs(seen: set<string>, name: string, k: nat)
      requires derive(name, k) !in seen && forall m :: 0 <= m < k ==> derive(name, m) in seen
      ensures FirstFree(seen, name) == derive(name, k)
    {
      assert Ends(seen, name);
      var free: nat :| derive(name, free) !in seen && FirstFree(seen, name) == FirstFrom(seen, name, 0, free);
      FirstFromIs(seen, name, 0, free, k);
    }

    lemma {:induction false} FirstFromIsFree(seen: set<string>, name: string, n: nat, free: nat)
      requires n <= free && derive(name, free) !in seen
      ensures FirstFrom(seen, name, n, free) !in seen
      ensures exists k: nat :: FirstFrom(seen, name, n, free) == derive(name, k)
      decreases free - n
    {
      if derive(name, n) in seen {
        FirstFromIsFree(seen, name, n + 1, free);
      }
    }

    lemma FirstFreeIsFree(seen: set<string>, name: string)
      requires Lawful() && Ends(seen, name)
      ensures FirstFree(seen, name) !in seen && Canonical(FirstFree(seen, name))
    {
      var free: nat :| derive(name, free) !in seen && FirstFree(seen, name) == FirstFrom(seen, name, 0, free);
      FirstFromIsFree(seen, name, 0, free);
    }

    // -------------------------------------------------------------------------
    // Assigning IDs
    // -------------------------------------------------------------------------

    /** The ID an entry ends with: its own if valid and not taken, else a derived one. */
    ghost function Chosen(seen: set<string>, name: string, id: string): string {
      var p := parse(TrimSpace(id));
      if p.Some? && p.value !in seen then p.value else FirstFree(seen, name)
    }

    /** The entry carries a valid ID that is not taken. */
    predicate Usable(seen: set<string>, id: string) {
      var p := parse(TrimSpace(id));
      p.Some? && p.value !in seen
    }

    /** The loop gets past the entry: its own ID is usable, or the retry loop ends. */
    ghost predicate GetsId(seen: set<string>, name: string, id: string) { Usable(seen, id) || Ends(seen, name) }

    lemma ChosenIsNew(seen: set<string>, name: string, id: string)
      requires Lawful() && GetsId(seen, name, id)
      ensures Chosen(seen, name, id) !in seen && Canonical(Chosen(seen, name, id))
    {
      if !Usable(seen, id) {
        FirstFreeIsFree(seen, name);
      }
    }

    /** The IDs of the first `k` entries. */
    ghost function Assigned(seen: set<string>, names: seq<string>, ids: seq<string>, k: nat): (r: seq<string>)
      requires |names| == |ids| && k <= |ids|
      ensures |r| == k
      decreases k
    {
      if k == 0 then []
      else
        var r := Assigned(seen, names, ids, k - 1);
        r + [Chosen(seen + Members(r), names[k - 1], ids[k - 1])]
    }

    static function Members(ids: seq<string>): set<string> { set i | 0 <= i < |ids| :: ids[i] }

    static lemma MembersOfAppend(ids: seq<string>, id: string)
      ensures Members(ids + [id]) == Members(ids) + {id}
    {
      var all := ids + [id];
      assert all[|ids|] == id;
      forall x | x in Members(ids) ensures x in Members(all) {
        var i :| 0 <= i < |ids| && ids[i] == x;
        assert all[i] == x;
      }
    }

    static lemma {:induction false} MembersSize(ids: seq<string>)
      ensures |Members(ids)| <= |ids|
      decreases |ids|
    {
      if ids != [] {
        var front := ids[..|ids| - 1];
        MembersSize(front);
        MembersOfAppend(front, ids[|ids| - 1]);
        assert front + [ids[|ids| - 1]] == ids;
      }
    }

    /** The loop gets past entry `i` of the list. */
    ghost predicate EntryGetsId(seen: set<string>, names: seq<string>, ids: seq<string>, i: nat)
      requires |names| == |ids| && i < |ids|
    {
      GetsId(seen + Members(Assigned(seen, names, ids, i)), names[i], ids[i])
    }

    /** The run over the list ends. */
    ghost predicate AllEnd(seen: set<string>, names: seq<string>, ids: seq<string>)
      requires |names| == |ids|
    {
      forall i :: 0 <= i < |ids| ==> EntryGetsId(seen, names, ids, i)
    }

    /**
     The run ends when, for each name, as many attempts differ as there are IDs to
     avoid: no assumption on later attempts is needed.
     */
    lemma VariedIsEnough(seen: set<string>, names: seq<string>, ids: seq<string>)
      requires |names| == |ids| && AllVaried(names, |seen| + |ids|)
      ensures AllEnd(seen, names, ids)
    {
      forall i | 0 <= i < |ids| ensures EntryGetsId(seen, names, ids, i) {
        MembersSize(Assigned(seen, names, ids, i));
        assert Varied(names[i], |seen| + |ids|);
        var n := FreeWithinSeen(seen + Members(Assigned(seen, names, ids, i)), names[i]);
      }
    }

    ghost predicate AllCanonical(ids: seq<string>) { forall i :: 0 <= i < |ids| ==> Canonical(ids[i]) }

    static predicate Distinct(ids: seq<string>) { forall i, j :: 0 <= i < j < |ids| ==> ids[i] != ids[j] }

    /** All IDs end canonical, pairwise distinct and different from those already taken. */
    lemma {:induction false} AssignedIsSound(seen: set<string>, names: seq<string>, ids: seq<string>, k: nat)
      requires Lawful() && |names| == |ids| && k <= |ids| && AllEnd(seen, names, ids)
      ensures AllCanonical(Assigned(seen, names, ids, k))
      ensures Distinct(Assigned(seen, names, ids, k))
      ensures Members(Assigned(seen, names, ids, k)) !! seen
      decreases k
    {
      if k > 0 {
        AssignedIsSound(seen, names, ids, k - 1);
        var r := Assigned(seen, names, ids, k - 1);
        var c := Chosen(seen + Members(r), names[k - 1], ids[k - 1]);
        assert EntryGetsId(seen, names, ids, k - 1);
        ChosenIsNew(seen + Members(r), names[k - 1], ids[k - 1]);
        forall i | 0 <= i < |r| ensures r[i] in Members(r) {
        }
        MembersOfAppend(r, c);
      }
    }

    /** Going through two lists one after the other is going through them as one. */
    lemma {:induction false} ListsInSequence(seen: set<string>, n1: seq<string>, i1: seq<string>,
                                             n2: seq<string>, i2: seq<string>, k: nat)
      requires |n1| == |i1| && |n2| == |i2| && k <= |i2|
      ensures var r := Assigned(seen, n1, i1, |i1|);
              Assigned(seen, n1 + n2, i1 + i2, |i1| + k) == r + Assigned(seen + Members(r), n2, i2, k)
      decreases k
    {
      var r := Assigned(seen, n1, i1, |i1|);
      if k == 0 {
        PrefixOnly(seen, n1, i1, n2, i2, |i1|);
        assert r + [] == r;
      } else {
        ListsInSequence(seen, n1, i1, n2, i2, k - 1);
        var q := Assigned(seen + Members(r), n2, i2, k - 1);
        MembersOfConcat(r, q);
        assert seen + Members(r + q) == seen + Members(r) + Members(q);
        assert (n1 + n2)[|i1| + k - 1] == n2[k - 1] && (i1 + i2)[|i1| + k - 1] == i2[k - 1];
        var c := Chosen(seen + Members(r + q), n2[k - 1], i2[k - 1]);
        assert Assigned(seen, n1 + n2, i1 + i2, |i1| + k) == (r + q) + [c];
        assert Assigned(seen + Members(r), n2, i2, k) == q + [c];
      }
    }

    lemma {:induction false} PrefixOnly(seen: set<string>, n1: seq<string>, i1: seq<string>,
                                        n2: seq<string>, i2: seq<string>, k: nat)
      requires |n1| == |i1| && |n2| == |i2| && k <= |i1|
      ensures Assigned(seen, n1 + n2, i1 + i2, k) == Assigned(seen, n1, i1, k)
      decreases k
    {
      if k > 0 {
        PrefixOnly(seen, n1, i1, n2, i2, k - 1);
      }
    }

    static lemma MembersOfConcat(a: seq<string>, b: seq<string>)
      ensures Members(a + b) == Members(a) + Members(b)
    {
      var all := a + b;
      forall x | x in Members(a) ensures x in Members(all) {
        var i :| 0 <= i < |a| && a[i] == x;
        assert all[i] == x;
      }
      forall x | x in Members(b) ensures x in Members(all) {
        var i :| 0 <= i < |b| && b[i] == x;
        assert all[|a| + i] == x;
      }
    }

    /** IDs that are canonical and pairwise distinct are all kept, whatever derivation does. */
    lemma {:induction false} GoodIdsStay(names: seq<string>, ids: seq<string>, k: nat)
      requires |names| == |ids| && k <= |ids|
      requires AllCanonical(ids) && Distinct(ids)
      ensures Assigned({}, names, ids, k) == ids[..k]
      decreases k
    {
      if k > 0 {
        GoodIdsStay(names, ids, k - 1);
        assert ids[k - 1] !in {} + Members(ids[..k - 1]);
        assert ids[..k] == ids[..k - 1] + [ids[k - 1]];
      }
    }

    /** A second run changes nothing, whatever the entry contents make the names. */
    lemma SecondRunChangesNothing(names: seq<string>, ids: seq<string>, again: seq<string>)
      requires Lawful() && |names| == |ids| == |again| && AllEnd({}, names, ids)
      ensures var r := Assigned({}, names, ids, |ids|); Assigned({}, again, r, |r|) == r
    {
      AssignedIsSound({}, names, ids, |ids|);
      var r := Assigned({}, names, ids, |ids|);
      GoodIdsStay(again, r, |r|);
      assert r[..|r|] == r;
    }

    /** Later entries do not disturb what earlier ones were given. */
    lemma {:induction false} EarlierStay(names: seq<string>, ids: seq<string>, i: nat, k: nat)
      requires |names| == |ids| && i < k <= |ids|
      ensures Assigned({}, names, ids, k)[i] == Chosen(Members(Assigned({}, names, ids, i)), names[i], ids[i])
      decreases k
    {
      assert {} + Members(Assigned({}, names, ids, i)) == Members(Assigned({}, names, ids, i));
      if i < k - 1 {
        EarlierStay(names, ids, i, k - 1);
      }
    }

    /** Entry `i` has no usable ID of its own: none, or one an earlier entry was given. */
    ghost predicate NeedsId(names: seq<string>, ids: seq<string>, i: nat)
      requires |names| == |ids| && i < |ids|
    {
      var p := parse(TrimSpace(ids[i]));
      p.None? || p.value in Assigned({}, names, ids, i)
    }

    /** Entry `i` takes the ID `v` by derivation. */
    ghost predicate Derives(names: seq<string>, ids: seq<string>, i: nat, v: string)
      requires |names| == |ids| && i < |ids|
    {
      NeedsId(names, ids, i) && FirstFree(Members(Assigned({}, names, ids, i)), names[i]) == v
    }

    /**
     A valid ID that no earlier entry carries is kept if and only if no earlier
     entry without a usable ID derives the same one.
     */
    lemma ValidUniqueIdKept(names: seq<string>, ids: seq<string>, j: nat, v: string)
      requires Lawful() && |names| == |ids| && j < |ids| && AllEnd({}, names, ids)
      requires parse(TrimSpace(ids[j])) == Some(v)
      requires forall i :: 0 <= i < j ==> parse(TrimSpace(ids[i])) != Some(v)
      ensures Assigned({}, names, ids, |ids|)[j] == v <==> forall i :: 0 <= i < j ==> !Derives(names, ids, i, v)
    {
      var r := Assigned({}, names, ids, j);
      EarlierStay(names, ids, j, |ids|);
      forall i | 0 <= i < j ensures r[i] == v <==> Derives(names, ids, i, v) {
        EarlierStay(names, ids, i, j);
        var taken := Assigned({}, names, ids, i);
        var p := parse(TrimSpace(ids[i]));
        assert p.Some? ==> (p.value in Members(taken) <==> p.value in taken);
      }
      assert v in Members(r) <==> exists i :: 0 <= i < j && r[i] == v;
      assert {} + Members(r) == Members(r) && EntryGetsId({}, names, ids, j);
      ChosenIsNew(Members(r), names[j], ids[j]);
    }
  }

  // ---------------------------------------------------------------------------
  // The loops
  // ---------------------------------------------------------------------------

  class Deriver {
    const uuids: Uuids
    var seen: set<string>
    var changed: bool

    constructor (uuids: Uuids)
      ensures this.uuids == uuids && seen == {} && !changed
    {
      this.uuids := uuids;
      seen, changed := {}, false;
    }

    /**
     The retry loop. It needs only that some attempt is free; when the first
     attempts differ, one more of them than `seen` has members is enough.
     */
    method FindFree(name: string) returns (id: string, attempts: nat)
      requires uuids.Ends(seen, name)
      ensures id == uuids.FirstFree(seen, name) && id !in seen
      ensures uuids.Varied(name, |seen|) ==> attempts <= |seen|
    {
      ghost var free: nat :| uuids.derive(name, free) !in seen;
      attempts := 0;
      id := uuids.derive(name, 0);
      while id in seen
        invariant id == uuids.derive(name, attempts) && attempts <= free
        invariant forall m :: 0 <= m < attempts ==> uuids.derive(name, m) in seen
        decreases free - attempts
      {
        attempts := attempts + 1;
        id := uuids.derive(name, attempts);
      }
      uuids.FirstFreeIs(seen, name, attempts);
      if uuids.Varied(name, |seen|) {
        ghost var n := uuids.FreeWithinSeen(seen, name);
      }
    }

    /** One entry of the loop: its ID is normalised, or a free one is derived. */
    method EnsureOne(id: string, name: string) returns (chosen: string)
      requires uuids.Lawful() && uuids.GetsId(seen, name, id)
      modifies this
      ensures chosen == uuids.Chosen(old(seen), name, id) && chosen !in old(seen)
      ensures seen == old(seen) + {chosen}
      ensures changed <==> old(changed) || chosen != id
    {
      uuids.ChosenIsNew(seen, name, id);
      var parsed := uuids.parse(TrimSpace(id));
      if parsed.Some? && parsed.value !in seen {
        chosen := parsed.value;
        seen := seen + {chosen};
        if id != chosen {
          changed := true;
        }
        return;
      }
      var free, attempts := FindFree(name);
      chosen := free;
      seen := seen + {chosen};
      changed := true;
    }

    /** `ensureStableIDs` on one list. */
    method EnsureList(ids: array<string>, names: seq<string>)
      requires uuids.Lawful() && |names| == ids.Length && uuids.AllEnd(seen, names, ids[..])
      modifies this, ids
      ensures ids[..] == uuids.Assigned(old(seen), names, old(ids[..]), ids.Length)
      ensures seen == old(seen) + Uuids.Members(ids[..])
      ensures changed <==> old(changed) || ids[..] != old(ids[..])
    {
      ghost var was := ids[..];
      ghost var taken := seen;
      ghost var result: seq<string> := [];
      for i := 0 to ids.Length
        invariant result == uuids.Assigned(taken, names, was, i)
        invariant forall j :: 0 <= j < i ==> ids[j] == result[j]
        invariant forall j :: i <= j < ids.Length ==> ids[j] == was[j]
        invariant seen == taken + Uuids.Members(result)
        invariant changed <==> old(changed) || result != was[..i]
      {
        PrefixGrows(was, i);
        assert uuids.EntryGetsId(taken, names, was, i);
        var chosen := EnsureOne(ids[i], names[i]);
        ids[i] := chosen;
        Uuids.MembersOfAppend(result, chosen);
        result := result + [chosen];
      }
      assert ids[..] == result && was[..ids.Length] == was;
    }
  }

  // ---------------------------------------------------------------------------
  // A valid ID that does change
  // ---------------------------------------------------------------------------

  /**
   "Valid, unique IDs are never changed" has an exception, for every derivation:
   an entry without an ID, placed before an entry that carries the ID derived for
   the first, takes that ID away from it.
   */
  lemma DerivedIdDisplaces(u: Uuids, name: string, other: string)
    requires u.Lawful() && u.parse("") == None && u.Ends({u.derive(name, 0)}, other)
    ensures var ids := ["", u.derive(name, 0)];
            u.parse(TrimSpace(ids[1])) == Some(ids[1]) && u.parse(TrimSpace(ids[0])) == None
            && u.Assigned({}, [name, other], ids, 2)[1] != ids[1]
  {
    var ids, names := ["", u.derive(name, 0)], [name, other];
    assert u.Canonical(ids[1]);
    assert u.Assigned({}, names, ids, 0) == [] && Uuids.Members([]) == {};
    u.FirstFreeIs({}, name, 0);
    assert u.Assigned({}, names, ids, 1) == [ids[1]];
    Uuids.MembersOfAppend([], ids[1]);
    assert [] + [ids[1]] == [ids[1]] && {} + {ids[1]} == {ids[1]};
    u.FirstFreeIsFree({ids[1]}, other);
  }

  /** Any trimmed non-empty text is an ID; the n-th derived one is "d" and the numeral of n. */
  function ToyUuids(): Uuids {
    Uuids(s => if s != "" && TrimSpace(s) == s then Some(s) else None, (name, n: nat) => "d" + Numeral(n))
  }

  /** The laws can be met. */
  lemma ToyLawful(name: string, limit: nat)
    ensures ToyUuids().Lawful() && ToyUuids().parse("") == None && ToyUuids().Varied(name, limit)
  {
    var u := ToyUuids();
    forall name, n: nat ensures u.Canonical(u.derive(name, n)) {
      var id := "d" + Numeral(n);
      NumeralDenotes(n);
      assert id[|id| - 1] == Numeral(n)[|Numeral(n)| - 1];
      assert TrimSpace(id) == id;
    }
    forall m, n | 0 <= m < n <= limit ensures u.derive(name, m) != u.derive(name, n) {
      assert ("d" + Numeral(m))[1..] == Numeral(m) && ("d" + Numeral(n))[1..] == Numeral(n);
      NumeralDenotes(m);
      NumeralDenotes(n);
    }
  }
}
