/** What the merge leaves alone: layout, comments, and trees that already agree. */
module YamlFrame {
  import opened Text
  import opened YamlMerge
  import opened YamlReadBack

  /**
   `res` keeps the layout of `dst`: comments stay on their nodes, existing keys
   stay where they are, keys the generated mapping does not name keep their
   value, and added keys come last and from the generated mapping only.
   */
  ghost predicate KeepsLayout(dst: Node, src: Node, res: Node)
    decreases src
  {
    res.meta == dst.meta &&
    (dst.kind == Mapping && src.kind == Mapping ==>
       && res.(entries := dst.entries) == dst
       && |dst.entries| <= |res.entries|
       && (forall j :: 0 <= j < |dst.entries| ==>
             && res.entries[j].key == dst.entries[j].key
             && var i := FindKey(src.entries, dst.entries[j].Name());
             if i >= 0 && FindKey(dst.entries, dst.entries[j].Name()) == j
             then KeepsLayout(dst.entries[j].val, src.entries[i].val, res.entries[j].val)
             else res.entries[j] == dst.entries[j])
       && (forall j :: |dst.entries| <= j < |res.entries| ==>
             && FindKey(dst.entries, res.entries[j].Name()) < 0
             && var i := FindKey(src.entries, res.entries[j].Name());
             i >= 0 && res.entries[j].key == src.entries[i].key))
  }

  lemma {:induction false} MergeKeepsLayout(dst: Node, src: Node, path: Path)
    requires UniqueKeys(src)
    ensures KeepsLayout(dst, src, Merge(dst, src, path))
    decreases src
  {
    if dst.kind == Mapping && src.kind == Mapping {
      var es := Merge(dst, src, path).entries;
      MergeEntriesKeep(dst, src, |src.entries|, path);
      forall j | 0 <= j < |dst.entries|
        ensures && es[j].key == dst.entries[j].key
                && var i := FindKey(src.entries, dst.entries[j].Name());
                if i >= 0 && FindKey(dst.entries, dst.entries[j].Name()) == j
                then KeepsLayout(dst.entries[j].val, src.entries[i].val, es[j].val)
                else es[j] == dst.entries[j]
      {
        assert Kept(dst.entries, src.entries, |src.entries|, path, es, j);
        var i := FindKey(src.entries, dst.entries[j].Name());
        if i >= 0 {
          MergeKeepsLayout(dst.entries[j].val, src.entries[i].val, path + [dst.entries[j].Name()]);
        }
      }
      forall j | |dst.entries| <= j < |es|
        ensures && FindKey(dst.entries, es[j].Name()) < 0
                && var i := FindKey(src.entries, es[j].Name());
                i >= 0 && es[j].key == src.entries[i].key
      {
        assert Added(dst.entries, src.entries, |src.entries|, es[j]);
      }
    }
  }

  /** After `k` source entries, old entry `j` is merged when one of them names it, else untouched. */
  ghost predicate Kept(dst: seq<Entry>, src: seq<Entry>, k: nat, path: Path, es: seq<Entry>, j: nat)
    requires j < |dst|
  {
    var e := dst[j];
    var i := FindKey(src, e.Name());
    j < |es| &&
    es[j] == if 0 <= i < k && FindKey(dst, e.Name()) == j
             then e.(val := Merge(e.val, src[i].val, path + [e.Name()])) else e
  }

  /** Entry `e` was added by one of the first `k` source entries. */
  ghost predicate Added(dst: seq<Entry>, src: seq<Entry>, k: nat, e: Entry) {
    && FindKey(dst, e.Name()) < 0
    && var i := FindKey(src, e.Name());
    0 <= i < k && e.key == src[i].key
  }

  ghost predicate Framed(dst: seq<Entry>, src: seq<Entry>, k: nat, path: Path, es: seq<Entry>) {
    && |dst| <= |es|
    && (forall j :: 0 <= j < |dst| ==> Kept(dst, src, k, path, es, j))
    && (forall j :: |dst| <= j < |es| ==> Added(dst, src, k, es[j]))
  }

  lemma {:induction false} MergeEntriesKeep(dst: Node, src: Node, k: nat, path: Path)
    requires src.kind == Mapping && UniqueKeys(src) && k <= |src.entries|
    ensures Framed(dst.entries, src.entries, k, path, MergeEntries(dst, src, k, path).entries)
    decreases k
  {
    if k > 0 {
      MergeEntriesKeep(dst, src, k - 1, path);
      MergeEntryKeeps(dst.entries, src.entries, k, path, MergeEntries(dst, src, k - 1, path).entries);
    }
  }

  lemma MergeEntryKeeps(dst: seq<Entry>, src: seq<Entry>, k: nat, path: Path, d: seq<Entry>)
    requires 0 < k <= |src| && DistinctNames(src) && Framed(dst, src, k - 1, path, d)
    ensures Framed(dst, src, k, path, MergeEntry(d, src[k - 1], path))
  {
    FindInDistinct(src, k - 1);
    SameSearch(dst, src, k - 1, path, d, src[k - 1].Name());
    if FindKey(d, src[k - 1].Name()) >= 0 {
      UpdateKeeps(dst, src, k, path, d);
    } else {
      AddKeeps(dst, src, k, path, d);
    }
  }

  lemma UpdateKeeps(dst: seq<Entry>, src: seq<Entry>, k: nat, path: Path, d: seq<Entry>)
    requires 0 < k <= |src| && FindKey(src, src[k - 1].Name()) == k - 1
    requires Framed(dst, src, k - 1, path, d)
    requires FindKey(d, src[k - 1].Name()) == FindKey(dst, src[k - 1].Name()) >= 0
    ensures var e := src[k - 1];
            var m := FindKey(d, e.Name());
            Framed(dst, src, k, path, d[m := d[m].(val := Merge(d[m].val, e.val, path + [e.Name()]))])
  {
    var e := src[k - 1];
    var m := FindKey(d, e.Name());
    var es := d[m := d[m].(val := Merge(d[m].val, e.val, path + [e.Name()]))];
    forall j | 0 <= j < |dst| ensures Kept(dst, src, k, path, es, j) {
      assert Kept(dst, src, k - 1, path, d, j);
    }
    forall j | |dst| <= j < |es| ensures Added(dst, src, k, es[j]) {
      assert Added(dst, src, k - 1, d[j]);
    }
  }

  lemma AddKeeps(dst: seq<Entry>, src: seq<Entry>, k: nat, path: Path, d: seq<Entry>)
    requires 0 < k <= |src| && FindKey(src, src[k - 1].Name()) == k - 1
    requires Framed(dst, src, k - 1, path, d)
    requires FindKey(dst, src[k - 1].Name()) < 0
    ensures Framed(dst, src, k, path, AddEntry(d, src[k - 1], path + [src[k - 1].Name()]))
  {
    var es := AddEntry(d, src[k - 1], path + [src[k - 1].Name()]);
    forall j | 0 <= j < |dst| ensures Kept(dst, src, k, path, es, j) {
      assert Kept(dst, src, k - 1, path, d, j);
    }
    forall j | |dst| <= j < |es| ensures Added(dst, src, k, es[j]) {
      assert j < |d| ==> Added(dst, src, k - 1, d[j]);
    }
  }

  /** A name not yet merged is found in the running tree exactly where the old tree has it. */
  lemma SameSearch(dst: seq<Entry>, src: seq<Entry>, k: nat, path: Path, d: seq<Entry>, name: string)
    requires FindKey(src, name) == k && Framed(dst, src, k, path, d)
    ensures FindKey(d, name) == FindKey(dst, name)
  {
    forall j | 0 <= j < |dst| ensures d[j].Name() == dst[j].Name() {
      assert Kept(dst, src, k, path, d, j);
    }
    forall j | |dst| <= j < |d| ensures d[j].Name() != name {
      assert Added(dst, src, k, d[j]);
    }
    FindKeyIs(d, name, FindKey(dst, name));
  }

  // ---------------------------------------------------------------------------
  // List elements are reused at most once
  // ---------------------------------------------------------------------------

  ghost predicate ReusedOnce(picks: seq<int>) {
    forall i, j :: 0 <= i < j < |picks| && picks[i] >= 0 ==> picks[i] != picks[j]
  }

  /** No old list element is taken over by two generated elements. */
  lemma {:induction false} PicksInjective(olds: seq<Node>, news: seq<Node>, k: nat)
    requires k <= |news|
    ensures ReusedOnce(Picks(olds, news, k))
    decreases k
  {
    if k > 0 {
      PicksInjective(olds, news, k - 1);
      var ps := Picks(olds, news, k - 1);
      forall i | 0 <= i < |ps| ensures ps[i] in Used(ps) {
      }
    }
  }

  // ---------------------------------------------------------------------------
  // Merging a tree into a copy of itself
  // ---------------------------------------------------------------------------

  lemma {:induction false} SameStructureReflexive(n: Node)
    ensures SameStructure(n, n)
    decreases n
  {
    match n.kind
    case Mapping =>
      forall i | 0 <= i < |n.entries|
        ensures SameStructure(n.entries[i].key, n.entries[i].key) && SameStructure(n.entries[i].val, n.entries[i].val)
      {
        SameStructureReflexive(n.entries[i].key);
        SameStructureReflexive(n.entries[i].val);
      }
    case Sequence =>
      forall i | 0 <= i < |n.items| ensures SameStructure(n.items[i], n.items[i]) {
        SameStructureReflexive(n.items[i]);
      }
    case _ =>
  }

  /** Each element of a list picks itself. */
  lemma {:induction false} SelfPicks(xs: seq<Node>, k: nat)
    requires k <= |xs|
    ensures forall i :: 0 <= i < k ==> Picks(xs, xs, k)[i] == i
    decreases k
  {
    if k > 0 {
      SelfPicks(xs, k - 1);
      var ps := Picks(xs, xs, k - 1);
      var used := Used(ps);
      forall j | 0 <= j < k - 1 ensures j in used {
        assert ps[j] == j;
      }
      assert k - 1 !in used;
      SameStructureReflexive(xs[k - 1]);
      var strong := FirstMatch(xs, used, xs[k - 1], true, 0);
      var weak := FirstMatch(xs, used, xs[k - 1], false, 0);
      assert Matches(false, xs[k - 1], xs[k - 1]);
      assert weak == k - 1;
      if Matches(true, xs[k - 1], xs[k - 1]) {
        assert strong == k - 1;
      } else {
        assert forall j :: 0 <= j < |xs| ==> !Matches(true, xs[j], xs[k - 1]);
      }
    }
  }

  predicate HasBlankKey(es: seq<Entry>) {
    exists i :: 0 <= i < |es| && TrimSpace(es[i].Name()) == ""
  }

  /** Some list element, at any depth, is a mapping with a blank key. */
  predicate HasBlankListKey(n: Node)
    decreases n
  {
    match n.kind
    case Mapping => exists i :: 0 <= i < |n.entries| && HasBlankListKey(n.entries[i].val)
    case Sequence =>
      exists i :: 0 <= i < |n.items| &&
        ((n.items[i].kind == Mapping && HasBlankKey(n.items[i].entries)) || HasBlankListKey(n.items[i]))
    case _ => false
  }

  lemma {:induction false} PruneMissingAll(es: seq<Entry>, names: set<string>)
    requires forall i :: 0 <= i < |es| ==> TrimSpace(es[i].Name()) in names
    ensures PruneMissing(es, names) == es
    decreases |es|
  {
    if es != [] {
      PruneMissingAll(es[..|es| - 1], names);
    }
  }

  lemma {:induction false} PruneMissingShrinks(es: seq<Entry>, names: set<string>)
    ensures |PruneMissing(es, names)| <= |es|
    ensures (exists i :: 0 <= i < |es| && TrimSpace(es[i].Name()) !in names) ==> |PruneMissing(es, names)| < |es|
    decreases |es|
  {
    if es != [] {
      PruneMissingShrinks(es[..|es| - 1], names);
    }
  }

  function SelfMerged(e: Entry, path: Path): Entry {
    e.(val := Merge(e.val, e.val, path + [e.Name()]))
  }

  /** Merging a mapping into itself merges each value into itself. */
  lemma {:induction false} SelfMergeEntries(x: Node, k: nat, path: Path)
    requires x.kind == Mapping && UniqueKeys(x) && k <= |x.entries|
    ensures var es := MergeEntries(x, x, k, path).entries;
            && |es| == |x.entries|
            && (forall i :: 0 <= i < k ==> es[i] == SelfMerged(x.entries[i], path))
            && (forall i :: k <= i < |es| ==> es[i] == x.entries[i])
    decreases k
  {
    if k > 0 {
      SelfMergeEntries(x, k - 1, path);
      var es := MergeEntries(x, x, k - 1, path).entries;
      FindKeyIs(es, x.entries[k - 1].Name(), k - 1);
    }
  }

  lemma SelfMergeItem(s: Node, path: Path)
    requires UniqueKeys(s)
    ensures MergeItem(s, s, path) == s <==>
            Merge(s, s, path) == s && !(s.kind == Mapping && HasBlankKey(s.entries))
  {
    if s.kind == Mapping {
      var m := Merge(s, s, path);
      var names := KeptNames(s.entries);
      SelfMergeEntries(s, |s.entries|, path);
      if HasBlankKey(s.entries) {
        var i :| 0 <= i < |s.entries| && TrimSpace(s.entries[i].Name()) == "";
        assert TrimSpace(m.entries[i].Name()) !in names;
        PruneMissingShrinks(m.entries, names);
      } else {
        forall i | 0 <= i < |m.entries| ensures TrimSpace(m.entries[i].Name()) in names {
          assert TrimSpace(s.entries[i].Name()) in names;
        }
        PruneMissingAll(m.entries, names);
      }
    }
  }

  predicate LosesKeys(item: Node) {
    (item.kind == Mapping && HasBlankKey(item.entries)) || HasBlankListKey(item)
  }

  lemma SelfMergeMapping(x: Node, path: Path)
    requires x.kind == Mapping && UniqueKeys(x)
    requires forall i :: 0 <= i < |x.entries| ==>
               (SelfMerged(x.entries[i], path) == x.entries[i] <==> !HasBlankListKey(x.entries[i].val))
    ensures Merge(x, x, path) == x <==> !HasBlankListKey(x)
  {
    var r := Merge(x, x, path);
    SelfMergeEntries(x, |x.entries|, path);
    assert r == x <==> r.entries == x.entries;
    if HasBlankListKey(x) {
      var i :| 0 <= i < |x.entries| && HasBlankListKey(x.entries[i].val);
      assert r.entries[i] != x.entries[i];
    } else {
      assert forall i :: 0 <= i < |x.entries| ==> r.entries[i] == x.entries[i];
    }
  }

  lemma SelfMergeSequence(x: Node, path: Path)
    requires x.kind == Sequence
    requires forall i :: 0 <= i < |x.items| ==>
             (MergeItem(x.items[i], x.items[i], path) == x.items[i] <==> !LosesKeys(x.items[i]))
    ensures Merge(x, x, path) == x <==> !HasBlankListKey(x)
  {
    var r := Merge(x, x, path);
    SelfPicks(x.items, |x.items|);
    assert r.items == MergeItems(x.items, x, path);
    forall i | 0 <= i < |x.items| ensures r.items[i] == MergeItem(x.items[i], x.items[i], path) {
      assert Picks(x.items, x.items, |x.items|)[i] == i;
    }
    assert r == x <==> r.items == x.items;
    if HasBlankListKey(x) {
      var i :| 0 <= i < |x.items| && LosesKeys(x.items[i]);
      assert r.items[i] != x.items[i];
    } else {
      assert forall i :: 0 <= i < |x.items| ==> !LosesKeys(x.items[i]);
    }
  }

  /**
   Merging a tree into its own copy changes nothing, exactly when no list
   element is a mapping with a blank key.
   */
  lemma {:induction false} SelfMerge(x: Node, path: Path)
    requires UniqueKeys(x)
    ensures Merge(x, x, path) == x <==> !HasBlankListKey(x)
    decreases x
  {
    match x.kind
    case Mapping =>
      forall i | 0 <= i < |x.entries|
        ensures SelfMerged(x.entries[i], path) == x.entries[i] <==> !HasBlankListKey(x.entries[i].val)
      {
        SelfMerge(x.entries[i].val, path + [x.entries[i].Name()]);
      }
      SelfMergeMapping(x, path);
    case Sequence =>
      forall i | 0 <= i < |x.items|
        ensures MergeItem(x.items[i], x.items[i], path) == x.items[i] <==> !LosesKeys(x.items[i])
      {
        SelfMerge(x.items[i], path);
        SelfMergeItem(x.items[i], path);
      }
      SelfMergeSequence(x, path);
    case _ =>
  }

  /** A list whose only element is a mapping with a blank key. */
  function BlankKeyList(): Node {
    var blank := Node(Scalar, "!!str", "", "", [], []);
    var one := Node(Scalar, "!!int", "1", "", [], []);
    Node(Sequence, "!!seq", "", "", [], [Node(Mapping, "!!map", "", "", [Entry(blank, one)], [])])
  }

  /** The exception occurs: a list element loses its blank key. */
  lemma BlankListKeyIsLost()
    ensures UniqueKeys(BlankKeyList()) && Merge(BlankKeyList(), BlankKeyList(), []) != BlankKeyList()
  {
    var x := BlankKeyList();
    assert UniqueKeys(x.items[0]);
    assert x.items[0].entries[0].Name() == "" && HasBlankKey(x.items[0].entries);
    SelfMerge(x, []);
  }
}
