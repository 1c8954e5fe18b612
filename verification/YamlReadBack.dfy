/**
 What a reader finds in the merged tree: every value of the generated tree,
 except values that equal the defaults (and blank keys inside list elements).
 */
module YamlReadBack {
  import opened Text
  import opened YamlMerge

  /** Every leaf reached through mappings is a zero value or a known default. */
  ghost predicate DefaultOnly(path: Path, n: Node)
    decreases n
  {
    if n.kind == Mapping then
      forall i :: 0 <= i < |n.entries| ==> DefaultOnly(path + [n.entries[i].Name()], n.entries[i].val)
    else IsKnownDefault(path, n)
  }

  /**
   `res` reads like `src` at `path`. Scalars agree; lists agree in length and
   order; a key may be missing only when everything below it is a default, or
   when it is a blank key of a list element. An empty list may read as null.
   */
  ghost predicate ReadsBack(path: Path, src: Node, res: Node, inList: bool)
    decreases src
  {
    match src.kind
    case Mapping =>
      res.kind == Mapping &&
      forall i :: 0 <= i < |src.entries| ==>
        var e := src.entries[i];
        var j := FindKey(res.entries, e.Name());
        if j >= 0 then ReadsBack(path + [e.Name()], e.val, res.entries[j].val, false)
        else DefaultOnly(path + [e.Name()], e.val) || (inList && TrimSpace(e.Name()) == "")
    case Sequence =>
      || (src.items == [] && res.kind == Scalar && res.tag == "!!null")
      || (res.kind == Sequence && |res.items| == |src.items| &&
          forall i :: 0 <= i < |src.items| ==> ReadsBack(path, src.items[i], res.items[i], true))
    case Unset => true
    case Document => res.(meta := src.meta) == src
    case _ => res.kind == src.kind && res.tag == src.tag && res.value == src.value
  }

  /** The clause of `ReadsBack` for one mapping entry. */
  ghost predicate EntryReadsBack(path: Path, e: Entry, res: seq<Entry>, inList: bool) {
    var j := FindKey(res, e.Name());
    if j >= 0 then ReadsBack(path + [e.Name()], e.val, res[j].val, false)
    else DefaultOnly(path + [e.Name()], e.val) || (inList && TrimSpace(e.Name()) == "")
  }

  lemma ReadsBackMapping(path: Path, src: Node, res: Node, inList: bool)
    requires src.kind == Mapping && res.kind == Mapping
    requires forall i :: 0 <= i < |src.entries| ==> EntryReadsBack(path, src.entries[i], res.entries, inList)
    ensures ReadsBack(path, src, res, inList)
  {
    forall i | 0 <= i < |src.entries|
      ensures var e := src.entries[i];
              var j := FindKey(res.entries, e.Name());
              if j >= 0 then ReadsBack(path + [e.Name()], e.val, res.entries[j].val, false)
              else DefaultOnly(path + [e.Name()], e.val) || (inList && TrimSpace(e.Name()) == "")
    {
      assert EntryReadsBack(path, src.entries[i], res.entries, inList);
    }
  }

  // ---------------------------------------------------------------------------
  // Searching in changed entry lists
  // ---------------------------------------------------------------------------

  lemma FindInUpdated(es: seq<Entry>, j: nat, v: Node, name: string)
    requires j < |es|
    ensures FindKey(es[j := es[j].(val := v)], name) == FindKey(es, name)
  {
    FindKeyIs(es[j := es[j].(val := v)], name, FindKey(es, name));
  }

  lemma FindInAppended(es: seq<Entry>, e: Entry, name: string)
    ensures FindKey(es + [e], name) ==
            if FindKey(es, name) >= 0 then FindKey(es, name) else if e.Name() == name then |es| else -1
  {
    FindKeyIs(es + [e], name,
              if FindKey(es, name) >= 0 then FindKey(es, name) else if e.Name() == name then |es| else -1);
  }

  lemma FindInDistinct(es: seq<Entry>, i: nat)
    requires DistinctNames(es) && i < |es|
    ensures FindKey(es, es[i].Name()) == i
  {
    FindKeyIs(es, es[i].Name(), i);
  }

  // ---------------------------------------------------------------------------
  // Copies and pruned copies read back
  // ---------------------------------------------------------------------------

  lemma {:induction false} CopyReadsBack(path: Path, n: Node, inList: bool)
    requires UniqueKeys(n)
    ensures ReadsBack(path, n, n, inList)
    decreases n
  {
    match n.kind
    case Mapping =>
      forall i | 0 <= i < |n.entries| ensures EntryReadsBack(path, n.entries[i], n.entries, inList) {
        FindInDistinct(n.entries, i);
        CopyReadsBack(path + [n.entries[i].Name()], n.entries[i].val, false);
      }
      ReadsBackMapping(path, n, n, inList);
    case Sequence =>
      forall i | 0 <= i < |n.items| ensures ReadsBack(path, n.items[i], n.items[i], true) {
        CopyReadsBack(path, n.items[i], true);
      }
    case _ =>
  }

  lemma {:induction false} ZeroIsDefaultOnly(path: Path, n: Node)
    requires IsZeroValue(n)
    ensures DefaultOnly(path, n)
    decreases n
  {
    if n.kind == Mapping {
      forall i | 0 <= i < |n.entries| ensures DefaultOnly(path + [n.entries[i].Name()], n.entries[i].val) {
        ZeroIsDefaultOnly(path + [n.entries[i].Name()], n.entries[i].val);
      }
    }
  }

  lemma KnownDefaultIsDefaultOnly(path: Path, n: Node)
    requires IsKnownDefault(path, n)
    ensures DefaultOnly(path, n)
  {
    if n.kind == Mapping {
      ZeroIsDefaultOnly(path, n);
    }
  }

  /** An entry leaves its mapping during pruning exactly when it says nothing but defaults. */
  ghost predicate Dropped(child: Path, v: Node) {
    IsKnownDefault(child, v) || EmptyCollection(Prune(child, v))
  }

  lemma {:induction false} PruneReadsBack(path: Path, n: Node, inList: bool)
    requires UniqueKeys(n)
    ensures ReadsBack(path, n, Prune(path, n), inList)
    ensures EmptyCollection(Prune(path, n)) ==> DefaultOnly(path, n)
    decreases n
  {
    var r := Prune(path, n);
    match n.kind
    case Mapping =>
      PruneKeeps(path, n, |n.entries|);
      forall i | 0 <= i < |n.entries|
        ensures EntryReadsBack(path, n.entries[i], r.entries, inList)
        ensures r.entries == [] ==> DefaultOnly(path + [n.entries[i].Name()], n.entries[i].val)
      {
        var e := n.entries[i];
        var child := path + [e.Name()];
        PruneReadsBack(child, e.val, false);
        if IsKnownDefault(child, e.val) {
          KnownDefaultIsDefaultOnly(child, e.val);
        }
      }
      ReadsBackMapping(path, n, r, inList);
    case Sequence =>
      forall i | 0 <= i < |n.items| ensures ReadsBack(path, n.items[i], r.items[i], true) {
        PruneReadsBack(path, n.items[i], true);
      }
    case _ =>
  }

  /** Which of the first `k` entries survive pruning, and with which value. */
  lemma {:induction false} PruneKeeps(path: Path, n: Node, k: nat)
    requires k <= |n.entries| && DistinctNames(n.entries)
    ensures forall name :: (forall i :: 0 <= i < k ==> n.entries[i].Name() != name) ==>
              FindKey(PruneEntries(path, n, k), name) < 0
    ensures forall i :: 0 <= i < k ==>
              var e := n.entries[i];
              var child := path + [e.Name()];
              var j := FindKey(PruneEntries(path, n, k), e.Name());
              if Dropped(child, e.val) then j < 0
              else j >= 0 && PruneEntries(path, n, k)[j].val == Prune(child, e.val)
    decreases k
  {
    if k > 0 {
      PruneKeeps(path, n, k - 1);
      var kept := PruneEntries(path, n, k - 1);
      var e := n.entries[k - 1];
      var child := path + [e.Name()];
      var pruned := PruneEntries(path, n, k);
      assert FindKey(kept, e.Name()) < 0;
      if Dropped(child, e.val) {
        assert pruned == kept;
      } else {
        assert pruned == kept + [e.(val := Prune(child, e.val))];
        forall name ensures FindKey(pruned, name) ==
                            if FindKey(kept, name) >= 0 then FindKey(kept, name)
                            else if e.Name() == name then |kept| else -1 {
          FindInAppended(kept, e.(val := Prune(child, e.val)), name);
        }
      }
    }
  }

  // ---------------------------------------------------------------------------
  // The merged tree reads back
  // ---------------------------------------------------------------------------

  lemma {:induction false} PruneMissingKeeps(dst: seq<Entry>, names: set<string>, name: string)
    requires TrimSpace(name) in names
    ensures var j := FindKey(dst, name);
            var r := PruneMissing(dst, names);
            var k := FindKey(r, name);
            (j < 0 <==> k < 0) && (j >= 0 ==> r[k] == dst[j])
    decreases |dst|
  {
    if dst != [] {
      var front := dst[..|dst| - 1];
      var e := dst[|dst| - 1];
      PruneMissingKeeps(front, names, name);
      FindInAppended(front, e, name);
      assert dst == front + [e];
      if TrimSpace(e.Name()) in names {
        FindInAppended(PruneMissing(front, names), e, name);
      }
    }
  }

  lemma PrunedElementReadsBack(path: Path, src: Node, m: Node)
    requires src.kind == Mapping && ReadsBack(path, src, m, false)
    ensures ReadsBack(path, src, m.(entries := PruneMissing(m.entries, KeptNames(src.entries))), true)
  {
    var r := m.(entries := PruneMissing(m.entries, KeptNames(src.entries)));
    forall i | 0 <= i < |src.entries| ensures EntryReadsBack(path, src.entries[i], r.entries, true) {
      var e := src.entries[i];
      assert EntryReadsBack(path, e, m.entries, false);
      if TrimSpace(e.Name()) != "" {
        assert TrimSpace(e.Name()) in KeptNames(src.entries);
        PruneMissingKeeps(m.entries, KeptNames(src.entries), e.Name());
      } else {
        BlankKeysVanish(m.entries, KeptNames(src.entries), e.Name());
      }
    }
    ReadsBackMapping(path, src, r, true);
  }

  lemma {:induction false} BlankKeysVanish(dst: seq<Entry>, names: set<string>, name: string)
    requires TrimSpace(name) !in names
    ensures FindKey(PruneMissing(dst, names), name) < 0
    decreases |dst|
  {
    if dst != [] {
      var front := dst[..|dst| - 1];
      BlankKeysVanish(front, names, name);
      if TrimSpace(dst[|dst| - 1].Name()) in names {
        FindInAppended(PruneMissing(front, names), dst[|dst| - 1], name);
      }
    }
  }

  /**
   Read-back: whatever the file held, every path of the generated tree reads
   back from the merged tree.
   */
  lemma {:induction false} MergeReadsBack(dst: Node, src: Node, path: Path)
    requires UniqueKeys(src)
    ensures ReadsBack(path, src, Merge(dst, src, path), false)
    decreases src, 1, 0
  {
    var r := Merge(dst, src, path);
    match src.kind
    case Mapping =>
      var d := if dst.kind != Mapping then CopyShallow(dst, src) else dst;
      MergeEntriesReadBack(d, src, |src.entries|, path);
      ReadsBackMapping(path, src, r, false);
    case Sequence =>
      if dst.kind == Scalar && dst.tag == "!!null" && src.items == [] {
      } else {
        var olds := if dst.kind != Sequence then [] else dst.items;
        MergeItemsReadBack(olds, src, path);
      }
    case _ =>
  }

  lemma {:induction false} MergeItemsReadBack(olds: seq<Node>, src: Node, path: Path)
    requires src.kind == Sequence && UniqueKeys(src)
    ensures forall i :: 0 <= i < |src.items| ==> ReadsBack(path, src.items[i], MergeItems(olds, src, path)[i], true)
    decreases src, 0, 0
  {
    var ps := Picks(olds, src.items, |src.items|);
    forall i | 0 <= i < |src.items|
      ensures ReadsBack(path, src.items[i], MergeItems(olds, src, path)[i], true)
    {
      var s := src.items[i];
      if ps[i] < 0 {
        CopyReadsBack(path, s, true);
      } else {
        MergeReadsBack(olds[ps[i]], s, path);
        if s.kind == Mapping {
          PrunedElementReadsBack(path, s, Merge(olds[ps[i]], s, path));
        }
      }
    }
  }

  /** The first `k` source entries read back from `res`. */
  ghost predicate AllReadBack(path: Path, src: seq<Entry>, k: nat, res: seq<Entry>)
    requires k <= |src|
  {
    forall i :: 0 <= i < k ==> EntryReadsBack(path, src[i], res, false)
  }

  lemma {:induction false} MergeEntriesReadBack(dst: Node, src: Node, k: nat, path: Path)
    requires src.kind == Mapping && UniqueKeys(src) && k <= |src.entries|
    ensures AllReadBack(path, src.entries, k, MergeEntries(dst, src, k, path).entries)
    decreases src, 0, k
  {
    if k > 0 {
      MergeEntriesReadBack(dst, src, k - 1, path);
      MergeEntryReadsBack(MergeEntries(dst, src, k - 1, path).entries, src.entries, k, path);
    }
  }

  lemma {:induction false} MergeEntryReadsBack(d: seq<Entry>, src: seq<Entry>, k: nat, path: Path)
    requires 0 < k <= |src| && DistinctNames(src) && UniqueKeys(src[k - 1].val)
    requires AllReadBack(path, src, k - 1, d)
    ensures AllReadBack(path, src, k, MergeEntry(d, src[k - 1], path))
    decreases src[k - 1], 0, 0
  {
    var e := src[k - 1];
    var child := path + [e.Name()];
    var j := FindKey(d, e.Name());
    if j >= 0 {
      MergeReadsBack(d[j].val, e.val, child);
      UpdateStep(path, src, k, d, Merge(d[j].val, e.val, child));
    } else {
      AddStep(path, src, k, d);
    }
  }

  lemma UpdateStep(path: Path, src: seq<Entry>, k: nat, d: seq<Entry>, v: Node)
    requires 0 < k <= |src| && DistinctNames(src) && AllReadBack(path, src, k - 1, d)
    requires FindKey(d, src[k - 1].Name()) >= 0
    requires ReadsBack(path + [src[k - 1].Name()], src[k - 1].val, v, false)
    ensures var j := FindKey(d, src[k - 1].Name()); AllReadBack(path, src, k, d[j := d[j].(val := v)])
  {
    var j := FindKey(d, src[k - 1].Name());
    UpdatedReadsBack(path, src[k - 1], d, v);
    forall i | 0 <= i < k - 1 ensures EntryReadsBack(path, src[i], d[j := d[j].(val := v)], false) {
      OtherSurvivesUpdate(path, src[i], d, j, v);
    }
  }

  lemma AddStep(path: Path, src: seq<Entry>, k: nat, d: seq<Entry>)
    requires 0 < k <= |src| && DistinctNames(src) && AllReadBack(path, src, k - 1, d)
    requires FindKey(d, src[k - 1].Name()) < 0 && UniqueKeys(src[k - 1].val)
    ensures AllReadBack(path, src, k, AddEntry(d, src[k - 1], path + [src[k - 1].Name()]))
  {
    AddedReadsBack(path, src[k - 1], d);
    forall i | 0 <= i < k - 1
      ensures EntryReadsBack(path, src[i], AddEntry(d, src[k - 1], path + [src[k - 1].Name()]), false)
    {
      OtherSurvivesAdd(path, src[i], d, src[k - 1]);
    }
  }

  lemma UpdatedReadsBack(path: Path, e: Entry, es: seq<Entry>, v: Node)
    requires FindKey(es, e.Name()) >= 0 && ReadsBack(path + [e.Name()], e.val, v, false)
    ensures var j := FindKey(es, e.Name()); EntryReadsBack(path, e, es[j := es[j].(val := v)], false)
  {
    FindInUpdated(es, FindKey(es, e.Name()), v, e.Name());
  }

  lemma OtherSurvivesUpdate(path: Path, x: Entry, es: seq<Entry>, j: nat, v: Node)
    requires j < |es| && es[j].Name() != x.Name() && EntryReadsBack(path, x, es, false)
    ensures EntryReadsBack(path, x, es[j := es[j].(val := v)], false)
  {
    FindInUpdated(es, j, v, x.Name());
  }

  lemma AddedReadsBack(path: Path, e: Entry, es: seq<Entry>)
    requires FindKey(es, e.Name()) < 0 && UniqueKeys(e.val)
    ensures EntryReadsBack(path, e, AddEntry(es, e, path + [e.Name()]), false)
  {
    var child := path + [e.Name()];
    PruneReadsBack(child, e.val, false);
    NewValueDropped(child, e.val);
    FindInAppended(es, e.(val := Prune(child, e.val)), e.Name());
  }

  lemma OtherSurvivesAdd(path: Path, x: Entry, es: seq<Entry>, e: Entry)
    requires e.Name() != x.Name() && EntryReadsBack(path, x, es, false)
    ensures EntryReadsBack(path, x, AddEntry(es, e, path + [e.Name()]), false)
  {
    FindInAppended(es, e.(val := Prune(path + [e.Name()], e.val)), x.Name());
  }

  /** A key that is not added says nothing but defaults. */
  lemma NewValueDropped(child: Path, v: Node)
    requires UniqueKeys(v)
    ensures var p := Prune(child, v);
            EmptyCollection(p) || (p.kind != Mapping && p.kind != Sequence && IsKnownDefault(child, p)) ==>
              DefaultOnly(child, v)
  {
    PruneReadsBack(child, v, false);
  }

  // ---------------------------------------------------------------------------
  // Which new keys are added
  // ---------------------------------------------------------------------------

  lemma {:induction false} AllDroppedPrunesToNothing(path: Path, n: Node, k: nat)
    requires k <= |n.entries|
    requires forall i :: 0 <= i < k ==> Dropped(path + [n.entries[i].Name()], n.entries[i].val)
    ensures PruneEntries(path, n, k) == []
    decreases k
  {
    if k > 0 {
      AllDroppedPrunesToNothing(path, n, k - 1);
    }
  }

  /** Inside a new value, pruning removes exactly the entries that say nothing but defaults. */
  lemma {:induction false} DroppedIffDefaultOnly(child: Path, v: Node)
    requires UniqueKeys(v)
    ensures Dropped(child, v) <==> DefaultOnly(child, v)
    decreases v
  {
    if IsKnownDefault(child, v) {
      KnownDefaultIsDefaultOnly(child, v);
    } else {
      PruneReadsBack(child, v, false);
      if v.kind == Mapping && DefaultOnly(child, v) {
        forall i | 0 <= i < |v.entries| ensures Dropped(child + [v.entries[i].Name()], v.entries[i].val) {
          DroppedIffDefaultOnly(child + [v.entries[i].Name()], v.entries[i].val);
        }
        AllDroppedPrunesToNothing(child, v, |v.entries|);
      }
    }
  }

  /**
   A new key is added exactly when its value says more than the defaults, with
   one exception: a non-empty list directly under the new key is always added,
   even when all of its elements are zero values.
   */
  lemma NewKeyAddedIff(es: seq<Entry>, e: Entry, child: Path)
    requires UniqueKeys(e.val)
    ensures AddEntry(es, e, child) != es <==>
            if e.val.kind == Sequence then e.val.items != [] else !DefaultOnly(child, e.val)
  {
    DroppedIffDefaultOnly(child, e.val);
    if e.val.kind == Mapping && IsKnownDefault(child, e.val) {
      forall i | 0 <= i < |e.val.entries| ensures Dropped(child + [e.val.entries[i].Name()], e.val.entries[i].val) {
      }
      AllDroppedPrunesToNothing(child, e.val, |e.val.entries|);
    }
  }

  /** The exception occurs: the list `[0]` under a new key is a zero value and is still written. */
  lemma ZeroListIsAdded()
    ensures exists e: Entry, child: Path :: IsZeroValue(e.val) && AddEntry([], e, child) != []
  {
    var zero := Node(Scalar, "!!int", "0", "", [], []);
    var e := Entry(Node(Scalar, "!!str", "weights", "", [], []), Node(Sequence, "!!seq", "", "", [], [zero]));
    assert IsZeroValue(zero) && IsZeroValue(e.val);
    NewKeyAddedIff([], e, ["weights"]);
  }
}
