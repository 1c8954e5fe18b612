/**
 The merge as the source runs it: on linked nodes, updating the nodes of the
 file in place. Each method is proved against the function of `YamlMerge` of the
 same name, and leaves a tree: no node is shared, and nothing outside the
 merged tree is touched. The generated tree is only read and copied, so it is
 a value here.
 */
module YamlInPlace {
  import opened Text
  import opened YamlMerge
  import YamlReadBack
  import YamlDefaults
  import YamlFrame

  /** A linked node. `content` holds the values of a mapping or the items of any other node. */
  class Cell {
    var kind: Kind
    var tag: string
    var value: string
    const meta: string
    var keys: seq<Node>
    var content: seq<Cell>

    constructor (kind: Kind, tag: string, value: string, meta: string, keys: seq<Node>, content: seq<Cell>)
      ensures this.kind == kind && this.tag == tag && this.value == value && this.meta == meta
      ensures this.keys == keys && this.content == content
    {
      this.kind, this.tag, this.value, this.meta := kind, tag, value, meta;
      this.keys, this.content := keys, content;
    }
  }

  /** The linked tree below `root`: the value it holds, and the cells it owns. */
  datatype Tree = Tree(root: Cell, node: Node, kids: seq<Tree>, cells: set<Cell>)

  // ---------------------------------------------------------------------------
  // Shape
  // ---------------------------------------------------------------------------

  function Keys(es: seq<Entry>): (r: seq<Node>)
    ensures |r| == |es|
  {
    seq(|es|, i requires 0 <= i < |es| => es[i].key)
  }

  function Vals(es: seq<Entry>): (r: seq<Node>)
    ensures |r| == |es|
  {
    seq(|es|, i requires 0 <= i < |es| => es[i].val)
  }

  function Nodes(kids: seq<Tree>): (r: seq<Node>)
    ensures |r| == |kids|
  {
    seq(|kids|, i requires 0 <= i < |kids| => kids[i].node)
  }

  function Roots(kids: seq<Tree>): (r: seq<Cell>)
    ensures |r| == |kids|
  {
    seq(|kids|, i requires 0 <= i < |kids| => kids[i].root)
  }

  /** A node has one list of children, read as entries or as items. */
  predicate OneList(n: Node) {
    && (n.entries == [] || n.items == [])
    && (n.kind == Mapping ==> n.items == [])
    && (n.kind == Sequence ==> n.entries == [])
  }

  predicate WellFormed(n: Node)
    decreases n
  {
    && OneList(n)
    && (forall i :: 0 <= i < |n.entries| ==> WellFormed(n.entries[i].val))
    && (forall i :: 0 <= i < |n.items| ==> WellFormed(n.items[i]))
  }

  function Children(n: Node): (r: seq<Node>) { Vals(n.entries) + n.items }

  /** The root cell holds exactly the root of the value, and links to the kids. */
  ghost predicate RootHolds(t: Tree)
    reads t.root
  {
    var c, n := t.root, t.node;
    && OneList(n)
    && c.kind == n.kind && c.tag == n.tag && c.value == n.value && c.meta == n.meta
    && c.keys == Keys(n.entries)
    && c.content == Roots(t.kids)
    && Nodes(t.kids) == Children(n)
  }

  /** `t` is a tree in the heap: the cells hold its value and none is shared. */
  ghost predicate Holds(t: Tree)
    reads t.root, t.cells
    decreases t, 1
  {
    && t.root in t.cells
    && RootHolds(t)
    && Forest(t.kids, t.cells - {t.root})
  }

  /** Separate trees within `cells`. */
  ghost predicate Forest(kids: seq<Tree>, cells: set<Cell>)
    reads cells
    decreases kids, 0
  {
    && Separate(kids, cells)
    && (forall i :: 0 <= i < |kids| ==> kids[i].root in kids[i].cells && Holds(kids[i]))
  }

  ghost predicate Separate(kids: seq<Tree>, cells: set<Cell>) {
    && (forall i, j :: 0 <= i < j < |kids| ==> kids[i].cells !! kids[j].cells)
    && (forall i :: 0 <= i < |kids| ==> kids[i].cells <= cells)
  }

  lemma ForestAppend(kids: seq<Tree>, cells: set<Cell>, t: Tree)
    requires Forest(kids, cells) && Holds(t) && t.cells !! cells
    ensures Forest(kids + [t], cells + t.cells)
    ensures Roots(kids + [t]) == Roots(kids) + [t.root]
    ensures Nodes(kids + [t]) == Nodes(kids) + [t.node]
  {
  }

  // ---------------------------------------------------------------------------
  // Copying
  // ---------------------------------------------------------------------------

  /** `deepCopyNode`. */
  method DeepCopy(n: Node) returns (c: Cell, ghost t: Tree)
    requires WellFormed(n)
    ensures t.root == c && t.node == n && fresh(t.cells)
    ensures Holds(t)
    decreases n, 1
  {
    var content;
    ghost var kids, cells;
    content, kids, cells := CopyChildren(n);
    c := new Cell(n.kind, n.tag, n.value, n.meta, Keys(n.entries), content);
    t := Tree(c, n, kids, cells + {c});
    assert t.cells - {c} == cells;
  }

  lemma ChildIsPart(n: Node, i: nat)
    requires WellFormed(n) && i < |Children(n)|
    ensures WellFormed(Children(n)[i]) && (n decreases to Children(n)[i])
  {
    assert Children(n)[i] == if i < |n.entries| then n.entries[i].val else n.items[i - |n.entries|];
  }

  method CopyChildren(n: Node) returns (content: seq<Cell>, ghost kids: seq<Tree>, ghost cells: set<Cell>)
    requires WellFormed(n)
    ensures fresh(cells) && Forest(kids, cells)
    ensures content == Roots(kids) && Nodes(kids) == Children(n)
    decreases n, 0
  {
    content, kids, cells := [], [], {};
    var ns := Children(n);
    for i := 0 to |ns|
      invariant content == Roots(kids) && Nodes(kids) == ns[..i]
      invariant fresh(cells) && Forest(kids, cells)
    {
      ChildIsPart(n, i);
      PrefixGrows(ns, i);
      var kid;
      ghost var kt;
      kid, kt := DeepCopy(ns[i]);
      ForestAppend(kids, cells, kt);
      content, kids, cells := content + [kid], kids + [kt], cells + kt.cells;
    }
  }

  // ---------------------------------------------------------------------------
  // Reading
  // ---------------------------------------------------------------------------

  function Zip(keys: seq<Node>, vals: seq<Node>): seq<Entry>
    requires |keys| <= |vals|
  {
    seq(|keys|, i requires 0 <= i < |keys| => Entry(keys[i], vals[i]))
  }

  lemma ZipUndoesSplit(n: Node)
    ensures Zip(Keys(n.entries), Children(n)) == n.entries
    ensures Children(n)[|n.entries|..] == n.items
  {
  }

  /** The value of a linked tree, for the helpers that only look at nodes. */
  method Read(c: Cell, ghost t: Tree) returns (n: Node)
    requires t.root == c && Holds(t)
    ensures n == t.node
    decreases t, 1
  {
    ZipUndoesSplit(t.node);
    var children := ReadAll(c.content, t.kids, t.cells - {c});
    n := Node(c.kind, c.tag, c.value, c.meta, Zip(c.keys, children), children[|c.keys|..]);
  }

  method ReadAll(content: seq<Cell>, ghost kids: seq<Tree>, ghost cells: set<Cell>) returns (ns: seq<Node>)
    requires content == Roots(kids) && Forest(kids, cells)
    ensures ns == Nodes(kids)
    decreases kids, 0
  {
    ns := [];
    for i := 0 to |content|
      invariant ns == Nodes(kids)[..i]
    {
      var n := Read(content[i], kids[i]);
      ns := ns + [n];
    }
  }

  /** `findMapKeyIndex`. */
  method FindMapKey(keys: seq<Node>, ghost es: seq<Entry>, name: string) returns (j: int)
    requires keys == Keys(es)
    ensures j == FindKey(es, name)
  {
    for i := 0 to |keys|
      invariant forall k :: 0 <= k < i ==> es[k].Name() != name
    {
      if keys[i].value == name {
        FindKeyIs(es, name, i);
        return i;
      }
    }
    FindKeyIs(es, name, -1);
    return -1;
  }

  // ---------------------------------------------------------------------------
  // Changing one child
  // ---------------------------------------------------------------------------

  /** A tree that grew only by new cells can replace its old self. */
  lemma ForestUpdate(kids: seq<Tree>, cells: set<Cell>, j: nat, v: Tree)
    requires j < |kids| && Separate(kids, cells)
    requires forall i :: 0 <= i < |kids| && i != j ==> Holds(kids[i])
    requires Holds(v) && v.cells - kids[j].cells !! cells
    ensures Forest(kids[j := v], cells + v.cells)
  {
    forall i | 0 <= i < |kids| && i != j ensures kids[i].cells !! v.cells {
      assert kids[i].cells <= cells;
    }
  }

  lemma ForestDrop(kids: seq<Tree>, cells: set<Cell>, j: nat)
    requires j < |kids| && Forest(kids, cells)
    ensures Forest(kids[..j] + kids[j + 1..], cells)
  {
    var rest := kids[..j] + kids[j + 1..];
    assert forall i :: 0 <= i < |rest| ==> rest[i] == if i < j then kids[i] else kids[i + 1];
  }

  // ---------------------------------------------------------------------------
  // Pruning
  // ---------------------------------------------------------------------------

  /** `pruneKnownDefaultsInNewNode`. */
  method PruneCell(c: Cell, ghost t: Tree, path: Path) returns (ghost r: Tree)
    requires t.root == c && Holds(t)
    modifies t.cells
    ensures r.root == c && r.cells == t.cells && Holds(r)
    ensures r.node == Prune(path, t.node)
    decreases t, 2
  {
    if c.kind == Mapping {
      r := PruneMappingCell(c, t, path);
    } else if c.kind == Sequence {
      r := PruneSequenceCell(c, t, path);
    } else {
      r := t;
    }
  }

  /** Prunes one tree of a forest. */
  method PruneBelow(kid: Cell, ghost kids: seq<Tree>, ghost cells: set<Cell>, ghost j: nat, path: Path)
    returns (ghost v: Tree)
    requires j < |kids| && kid == kids[j].root && Forest(kids, cells)
    modifies kids[j].cells
    ensures Holds(v) && Forest(kids[j := v], cells)
    ensures v.root == kid && v.node == Prune(path, kids[j].node)
    decreases kids[j], 3
  {
    v := PruneCell(kid, kids[j], path);
    ForestUpdate(kids, cells, j, v);
    assert cells + v.cells == cells;
  }

  method PruneSequenceCell(c: Cell, ghost t: Tree, path: Path) returns (ghost r: Tree)
    requires t.root == c && Holds(t) && t.node.kind == Sequence
    modifies t.cells
    ensures r.root == c && r.cells == t.cells && Holds(r)
    ensures r.node == Prune(path, t.node)
    decreases t, 1
  {
    assert Nodes(t.kids) == t.node.items;
    ghost var kids := PruneItems(c.content, t.kids, t.cells - {c}, path);
    PrunedItemNodes(path, t.node, t.kids, kids);
    r := Tree(c, Prune(path, t.node), kids, t.cells);
    assert RootHolds(r);
    assert Forest(r.kids, r.cells - {c});
  }

  lemma PrunedItemNodes(path: Path, n: Node, kids: seq<Tree>, pruned: seq<Tree>)
    requires n.kind == Sequence && Nodes(kids) == n.items && |pruned| == |kids|
    requires forall i :: 0 <= i < |kids| ==> pruned[i].node == Prune(path, kids[i].node)
    ensures Nodes(pruned) == Prune(path, n).items
  {
    forall i | 0 <= i < |kids| ensures Nodes(pruned)[i] == Prune(path, n).items[i] {
      assert Nodes(kids)[i] == n.items[i];
    }
  }

  method PruneItems(content: seq<Cell>, ghost kids: seq<Tree>, ghost cells: set<Cell>, path: Path)
    returns (ghost r: seq<Tree>)
    requires content == Roots(kids) && Forest(kids, cells)
    modifies cells
    ensures content == Roots(r) && Forest(r, cells)
    ensures forall i :: 0 <= i < |kids| ==> r[i].node == Prune(path, kids[i].node)
    decreases kids, 0
  {
    r := kids;
    for i := 0 to |content|
      invariant content == Roots(r) && Forest(r, cells)
      invariant forall k :: i <= k < |kids| ==> r[k] == kids[k]
      invariant forall k :: 0 <= k < i ==> r[k].node == Prune(path, kids[k].node)
    {
      ghost var v := PruneBelow(content[i], r, cells, i, path);
      r := r[i := v];
    }
  }

  method PruneMappingCell(c: Cell, ghost t: Tree, path: Path) returns (ghost r: Tree)
    requires t.root == c && Holds(t) && t.node.kind == Mapping
    modifies t.cells
    ensures r.root == c && r.cells == t.cells && Holds(r)
    ensures r.node == Prune(path, t.node)
    decreases t, 1
  {
    var keys, content;
    ghost var kids;
    keys, content, kids := PruneKeys(c.keys, c.content, t, path);
    c.keys, c.content := keys, content;
    r := Tree(c, Prune(path, t.node), kids, t.cells);
  }

  /** The loop over a mapping that filters its entries. */
  method PruneKeys(keys: seq<Node>, content: seq<Cell>, ghost t: Tree, path: Path)
    returns (keys': seq<Node>, content': seq<Cell>, ghost kept: seq<Tree>)
    requires Mirror(t.node.entries, keys, t.kids) && content == Roots(t.kids)
    requires Forest(t.kids, t.cells - {t.root})
    modifies t.cells - {t.root}
    ensures Mirror(PruneEntries(path, t.node, |t.node.entries|), keys', kept)
    ensures content' == Roots(kept) && Forest(kept, t.cells - {t.root})
    decreases t, 0
  {
    keys', content', kept := [], [], [];
    for k := 0 to |keys|
      invariant Pruning(t, path, k, keys', content', kept)
    {
      var keep;
      keep, kept := PruneNext(t, k, path, keys[k], content[k], keys', content', kept);
      if keep {
        keys', content' := keys' + [keys[k]], content' + [content[k]];
      }
    }
    assert kept + t.kids[|keys|..] == kept;
  }

  /** What the filter loop has done after `k` entries. */
  ghost predicate Pruning(t: Tree, path: Path, k: nat, keys: seq<Node>, content: seq<Cell>, kept: seq<Tree>)
    reads t.cells
  {
    && k <= |t.kids| == |t.node.entries|
    && Mirror(PruneEntries(path, t.node, k), keys, kept)
    && content == Roots(kept) && Forest(kept + t.kids[k..], t.cells - {t.root})
  }

  method PruneNext(ghost t: Tree, ghost k: nat, path: Path, key: Node, kid: Cell,
                   ghost keys: seq<Node>, ghost content: seq<Cell>, ghost kept: seq<Tree>)
    returns (keep: bool, ghost kept': seq<Tree>)
    requires Pruning(t, path, k, keys, content, kept) && k < |t.kids| && Nodes(t.kids) == Vals(t.node.entries)
    requires key == t.node.entries[k].key && kid == t.kids[k].root
    modifies t.kids[k].cells
    ensures if keep then Pruning(t, path, k + 1, keys + [key], content + [kid], kept')
            else Pruning(t, path, k + 1, keys, content, kept')
    decreases t.kids[k], 5
  {
    ghost var work, v := kept + t.kids[k..], t;
    assert work[|kept|] == t.kids[k];
    keep, v := PruneChild(key, kid, work, t.cells - {t.root}, |kept|, path);
    PruneStep(path, t, k, keys, kept, keep, v);
    WorkList(kept, t.kids, k, v);
    kept' := if keep then kept + [v] else kept;
  }

  /** `keys` and `kids` hold the entries `es`. */
  ghost predicate Mirror(es: seq<Entry>, keys: seq<Node>, kids: seq<Tree>) {
    keys == Keys(es) && Nodes(kids) == Vals(es)
  }

  lemma MirrorAppend(es: seq<Entry>, keys: seq<Node>, kids: seq<Tree>, e: Entry, v: Tree)
    requires Mirror(es, keys, kids) && v.node == e.val
    ensures Mirror(es + [e], keys + [e.key], kids + [v])
  {
    assert forall i :: 0 <= i < |kids| ==> kids[i].node == Nodes(kids)[i] == es[i].val;
  }

  /** Replacing or dropping the first tree not yet looked at. */
  lemma WorkList(kept: seq<Tree>, kids: seq<Tree>, k: nat, v: Tree)
    requires k < |kids|
    ensures var work, j := kept + kids[k..], |kept|;
            && work[..j] + work[j + 1..] == kept + kids[k + 1..]
            && work[j := v] == kept + [v] + kids[k + 1..]
  {
  }

  /** Both outcomes of `PruneChild` follow `PruneEntries`. */
  lemma PruneStep(path: Path, t: Tree, k: nat, keys: seq<Node>, kept: seq<Tree>, keep: bool, v: Tree)
    requires k < |t.node.entries| && Nodes(t.kids) == Vals(t.node.entries)
    requires Mirror(PruneEntries(path, t.node, k), keys, kept)
    requires keep == Survives(path + [t.node.entries[k].Name()], t.kids[k].node)
    requires keep ==> v.node == Prune(path + [t.node.entries[k].Name()], t.kids[k].node)
    ensures if keep
            then Mirror(PruneEntries(path, t.node, k + 1), keys + [t.node.entries[k].key], kept + [v])
            else Mirror(PruneEntries(path, t.node, k + 1), keys, kept)
  {
    var e := t.node.entries[k];
    assert Nodes(t.kids)[k] == e.val;
    if keep {
      MirrorAppend(PruneEntries(path, t.node, k), keys, kept, e.(val := v.node), v);
    }
  }

  /** A collection without content, as read from its cell. */
  predicate IsEmpty(c: Cell, ghost t: Tree): (b: bool)
    requires t.root == c && RootHolds(t)
    reads c
    ensures b == EmptyCollection(t.node)
  {
    assert |c.keys| == |t.node.entries| && |c.content| == |Nodes(t.kids)| == |t.node.entries| + |t.node.items|;
    (c.kind == Mapping && c.keys == []) || (c.kind == Sequence && c.content == [])
  }

  predicate Survives(child: Path, val: Node) {
    !IsKnownDefault(child, val) && !EmptyCollection(Prune(child, val))
  }

  /** Whether one entry of a mapping survives; its value is pruned when it does. */
  method PruneChild(key: Node, kid: Cell, ghost kids: seq<Tree>, ghost cells: set<Cell>, ghost j: nat, path: Path)
    returns (keep: bool, ghost v: Tree)
    requires j < |kids| && kid == kids[j].root && Forest(kids, cells)
    modifies kids[j].cells
    ensures keep == Survives(path + [key.value], kids[j].node)
    ensures keep ==> v.root == kid && v.node == Prune(path + [key.value], kids[j].node)
    ensures Forest(if keep then kids[j := v] else kids[..j] + kids[j + 1..], cells)
    decreases kids[j], 4
  {
    var child := path + [key.value];
    var val := Read(kid, kids[j]);
    keep, v := false, kids[j];
    ForestDrop(kids, cells, j);
    if !IsKnownDefault(child, val) {
      v := PruneBelow(kid, kids, cells, j, child);
      ForestDrop(kids[j := v], cells, j);
      assert kids[j := v][..j] + kids[j := v][j + 1..] == kids[..j] + kids[j + 1..];
      keep := !IsEmpty(kid, v);
    }
  }

  /** `pruneMissingMapKeys`: deletes entries in place. */
  method PruneMissingCell(c: Cell, ghost t: Tree, names: set<string>) returns (ghost r: Tree)
    requires t.root == c && Holds(t) && t.node.kind == Mapping
    modifies c
    ensures r.root == c && r.cells == t.cells && Holds(r)
    ensures r.node == t.node.(entries := PruneMissing(t.node.entries, names))
  {
    ghost var es := t.node.entries;
    ghost var k := 0;
    var i := 0;
    r := t;
    assert es[..0] + es[0..] == es;
    while i < |c.keys|
      invariant r.root == c && r.cells == t.cells && Holds(r)
      invariant k <= |es| && i == |PruneMissing(es[..k], names)|
      invariant r.node == HalfPruned(t.node, names, k)
      decreases |es| - k
    {
      var kept;
      kept, r := PruneMissingAt(c, t, r, names, k, i);
      i, k := if kept then i + 1 else i, k + 1;
    }
    assert es[..k] == es && k == |es|;
  }

  function HalfPruned(n: Node, names: set<string>, k: nat): Node
    requires k <= |n.entries|
  {
    n.(entries := PruneMissing(n.entries[..k], names) + n.entries[k..])
  }

  method PruneMissingAt(c: Cell, ghost t: Tree, ghost u: Tree, names: set<string>, ghost k: nat, i: nat)
    returns (kept: bool, ghost r: Tree)
    requires u.root == c && u.cells == t.cells && Holds(u) && t.node.kind == Mapping
    requires k < |t.node.entries| && i == |PruneMissing(t.node.entries[..k], names)|
    requires u.node == HalfPruned(t.node, names, k)
    modifies c
    ensures r.root == c && r.cells == t.cells && Holds(r)
    ensures |PruneMissing(t.node.entries[..k + 1], names)| == if kept then i + 1 else i
    ensures r.node == HalfPruned(t.node, names, k + 1)
  {
    MissingStep(t.node.entries, names, k);
    assert c.keys[i] == u.node.entries[i].key;
    r := u;
    kept := TrimSpace(c.keys[i].value) in names;
    if !kept {
      r := DeleteEntry(c, u, i);
    }
  }

  lemma DropBetween<T>(done: seq<T>, s: seq<T>, k: nat)
    requires k < |s|
    ensures (done + s[k..])[|done|] == s[k]
    ensures DropAt(done + s[k..], |done|) == done + s[k + 1..]
    ensures done + s[k..] == done + [s[k]] + s[k + 1..]
  {
    var all := done + s[k..];
    assert all[..|done|] == done;
    assert all[|done| + 1..] == s[k + 1..];
  }

  lemma MissingStep(es: seq<Entry>, names: set<string>, k: nat)
    requires k < |es|
    ensures var done, e := PruneMissing(es[..k], names), es[k];
            && PruneMissing(es[..k + 1], names) == (if TrimSpace(e.Name()) in names then done + [e] else done)
            && (done + es[k..])[|done|] == e
            && DropAt(done + es[k..], |done|) == done + es[k + 1..]
            && done + es[k..] == done + [e] + es[k + 1..]
  {
    DropBetween(PruneMissing(es[..k], names), es, k);
    assert es[..k + 1][..k] == es[..k];
  }

  function DropAt<T>(s: seq<T>, j: nat): seq<T>
    requires j < |s|
  {
    s[..j] + s[j + 1..]
  }

  method DeleteEntry(c: Cell, ghost t: Tree, j: nat) returns (ghost r: Tree)
    requires t.root == c && Holds(t) && t.node.kind == Mapping && j < |t.node.entries|
    modifies c
    ensures r.root == c && r.cells == t.cells && Holds(r)
    ensures r.node == t.node.(entries := DropAt(t.node.entries, j))
  {
    ForestDrop(t.kids, t.cells - {c}, j);
    c.keys, c.content := DropAt(c.keys, j), DropAt(c.content, j);
    r := Tree(c, t.node.(entries := DropAt(t.node.entries, j)), DropAt(t.kids, j), t.cells);
    DropMirrors(t.node.entries, t.kids, j);
  }

  lemma DropMirrors(es: seq<Entry>, kids: seq<Tree>, j: nat)
    requires j < |es| && Nodes(kids) == Vals(es)
    ensures Keys(DropAt(es, j)) == DropAt(Keys(es), j)
    ensures Nodes(DropAt(kids, j)) == Vals(DropAt(es, j))
    ensures Roots(DropAt(kids, j)) == DropAt(Roots(kids), j)
  {
    assert forall i :: 0 <= i < |kids| ==> kids[i].node == Nodes(kids)[i] == es[i].val;
  }

  // ---------------------------------------------------------------------------
  // Matching list elements
  // ---------------------------------------------------------------------------

  function Taken(used: seq<bool>): set<int> { set i | 0 <= i < |used| && used[i] }

  /** One pass of `matchSequenceElement`. */
  method ScanForMatch(olds: seq<Node>, used: array<bool>, target: Node, strong: bool) returns (r: int)
    requires used.Length == |olds|
    ensures r == FirstMatch(olds, Taken(used[..]), target, strong, 0)
  {
    for i := 0 to |olds|
      invariant FirstMatch(olds, Taken(used[..]), target, strong, 0) ==
                FirstMatch(olds, Taken(used[..]), target, strong, i)
    {
      if !used[i] && Matches(strong, olds[i], target) {
        return i;
      }
    }
    return -1;
  }

  /** Only which old elements are still free matters. */
  lemma {:induction false} SameFree(olds: seq<Node>, used: set<int>, used': set<int>, target: Node, strong: bool,
                                    i: nat)
    requires i <= |olds| && forall j :: 0 <= j < |olds| ==> (j in used <==> j in used')
    ensures FirstMatch(olds, used, target, strong, i) == FirstMatch(olds, used', target, strong, i)
    decreases |olds| - i
  {
    if i < |olds| {
      SameFree(olds, used, used', target, strong, i + 1);
    }
  }

  /** `matchSequenceElement`. */
  method MatchSequenceElement(olds: seq<Node>, used: array<bool>, ghost ps: seq<int>, target: Node) returns (r: int)
    requires used.Length == |olds| && Taken(used[..]) == Used(ps) - {-1}
    ensures r == MatchElement(olds, Used(ps), target)
  {
    SameFree(olds, Taken(used[..]), Used(ps), target, true, 0);
    SameFree(olds, Taken(used[..]), Used(ps), target, false, 0);
    r := ScanForMatch(olds, used, target, true);
    if r < 0 {
      r := ScanForMatch(olds, used, target, false);
    }
  }

  lemma PickIsUsed(ps: seq<int>, p: int, used: seq<bool>, used': seq<bool>)
    requires Taken(used) == Used(ps) - {-1} && -1 <= p < |used|
    requires used' == if p < 0 then used else used[p := true]
    ensures Taken(used') == Used(ps + [p]) - {-1}
  {
    var qs := ps + [p];
    assert forall i :: 0 <= i < |ps| ==> qs[i] == ps[i];
    assert qs[|ps|] == p;
    assert Used(qs) == Used(ps) + {p};
    if p >= 0 {
      assert Taken(used') == Taken(used) + {p};
    }
  }

  /** `reorderSequenceForMerge`: which old element each new one takes over. */
  method Reorder(olds: seq<Node>, news: seq<Node>) returns (ps: seq<int>)
    ensures ps == Picks(olds, news, |news|)
  {
    var used := new bool[|olds|](_ => false);
    ps := [];
    for k := 0 to |news|
      invariant ps == Picks(olds, news, k)
      invariant Taken(used[..]) == Used(ps) - {-1}
    {
      var p := MatchSequenceElement(olds, used, ps, news[k]);
      ghost var before := used[..];
      if p >= 0 {
        used[p] := true;
      }
      PickIsUsed(ps, p, before, used[..]);
      ps := ps + [p];
    }
  }

  // ---------------------------------------------------------------------------
  // The merge
  // ---------------------------------------------------------------------------

  /** `copyNodeShallow`. */
  method CopyShallowInto(dst: Cell, ghost t: Tree, src: Node) returns (ghost r: Tree)
    requires t.root == dst && Holds(t) && WellFormed(src)
    modifies dst
    ensures r.root == dst && fresh(r.cells - {dst}) && Holds(r)
    ensures r.node == CopyShallow(t.node, src)
  {
    var content;
    ghost var kids, cells;
    content, kids, cells := CopyChildren(src);
    dst.kind, dst.tag, dst.value := src.kind, src.tag, src.value;
    dst.keys, dst.content := Keys(src.entries), content;
    r := Tree(dst, CopyShallow(t.node, src), kids, cells + {dst});
    assert r.cells - {dst} == cells;
  }

  function SetVal(n: Node, j: nat, v: Node): Node
    requires j < |n.entries|
  {
    n.(entries := n.entries[j := n.entries[j].(val := v)])
  }

  lemma SplitSetVal(n: Node, j: nat, v: Node)
    requires j < |n.entries|
    ensures Keys(SetVal(n, j, v).entries) == Keys(n.entries)
    ensures Children(SetVal(n, j, v)) == Children(n)[j := v]
  {
  }

  /** Merges into the value of an existing key. */
  method MergeKey(dst: Cell, ghost t: Tree, j: nat, src: Node, path: Path) returns (ghost r: Tree)
    requires t.root == dst && Holds(t) && j < |t.node.entries| && WellFormed(src)
    modifies t.cells
    ensures r.root == dst && fresh(r.cells - t.cells) && Holds(r)
    ensures r.node == SetVal(t.node, j, Merge(t.node.entries[j].val, src, path))
    decreases src, 2
  {
    assert Nodes(t.kids)[j] == t.node.entries[j].val;
    ghost var kid := MergeNode(dst.content[j], t.kids[j], src, path);
    ForestUpdate(t.kids, t.cells - {dst}, j, kid);
    r := Tree(dst, SetVal(t.node, j, kid.node), t.kids[j := kid], t.cells + kid.cells);
    assert r.cells - {dst} == t.cells - {dst} + kid.cells;
    SplitSetVal(t.node, j, kid.node);
  }

  lemma LeafDefault(path: Path, n: Node)
    requires n.kind != Mapping && n.kind != Sequence
    ensures IsKnownDefault(path, n) == IsKnownDefault(path, n.(meta := "", entries := [], items := []))
  {
  }

  /** Adds a key the mapping lacks, unless it only says what the defaults say. */
  method AddKey(dst: Cell, ghost t: Tree, e: Entry, child: Path) returns (ghost r: Tree)
    requires t.root == dst && Holds(t) && t.node.kind == Mapping && WellFormed(e.val)
    modifies dst
    ensures r.root == dst && fresh(r.cells - t.cells) && Holds(r)
    ensures r.node == t.node.(entries := AddEntry(t.node.entries, e, child))
  {
    var candidate;
    ghost var v;
    candidate, v := DeepCopy(e.val);
    v := PruneCell(candidate, v, child);
    r := t;
    if IsEmpty(candidate, v) {
      return;
    }
    if candidate.kind != Mapping && candidate.kind != Sequence {
      LeafDefault(child, v.node);
      if IsKnownDefault(child, Node(candidate.kind, candidate.tag, candidate.value, "", [], [])) {
        return;
      }
    }
    r := AppendKey(dst, t, e.key, candidate, v);
  }

  method AppendKey(dst: Cell, ghost t: Tree, key: Node, val: Cell, ghost v: Tree) returns (ghost r: Tree)
    requires t.root == dst && Holds(t) && t.node.kind == Mapping
    requires v.root == val && Holds(v) && v.cells !! t.cells
    modifies dst
    ensures r.root == dst && r.cells == t.cells + v.cells && Holds(r)
    ensures r.node == t.node.(entries := t.node.entries + [Entry(key, v.node)])
  {
    dst.keys, dst.content := dst.keys + [key], dst.content + [val];
    ForestAppend(t.kids, t.cells - {dst}, v);
    r := Tree(dst, t.node.(entries := t.node.entries + [Entry(key, v.node)]), t.kids + [v], t.cells + v.cells);
    assert r.cells - {dst} == t.cells - {dst} + v.cells;
    assert Vals(r.node.entries) == Vals(t.node.entries) + [v.node];
    assert Keys(r.node.entries) == Keys(t.node.entries) + [key];
  }

  /** `mergeMappingPreserve`. */
  method MergeMapping(dst: Cell, ghost t: Tree, src: Node, path: Path) returns (ghost r: Tree)
    requires t.root == dst && Holds(t) && t.node.kind == Mapping && src.kind == Mapping && WellFormed(src)
    modifies t.cells
    ensures r.root == dst && fresh(r.cells - t.cells) && Holds(r)
    ensures r.node == MergeEntries(t.node, src, |src.entries|, path)
    decreases src, 0
  {
    r := t;
    for k := 0 to |src.entries|
      invariant r.root == dst && fresh(r.cells - t.cells) && Holds(r)
      invariant r.node == MergeEntries(t.node, src, k, path)
    {
      r := MergeEntryInto(dst, t.node, r, src, k, path);
    }
  }

  /** One iteration of `mergeMappingPreserve`, on a mapping that started as `n`. */
  method MergeEntryInto(dst: Cell, ghost n: Node, ghost t: Tree, src: Node, k: nat, path: Path) returns (ghost r: Tree)
    requires t.root == dst && Holds(t) && n.kind == Mapping && WellFormed(src) && k < |src.entries|
    requires t.node == MergeEntries(n, src, k, path)
    modifies t.cells
    ensures r.root == dst && fresh(r.cells - t.cells) && Holds(r)
    ensures r.node == MergeEntries(n, src, k + 1, path)
    decreases src.entries[k].val, 3
  {
    var e := src.entries[k];
    var child := path + [e.Name()];
    var j := FindMapKey(dst.keys, t.node.entries, e.Name());
    if j >= 0 {
      r := MergeKey(dst, t, j, e.val, child);
    } else {
      r := AddKey(dst, t, e, child);
    }
  }

  /** One list element that takes over an old one. */
  method MergeItemCell(dst: Cell, ghost t: Tree, src: Node, path: Path) returns (ghost r: Tree)
    requires t.root == dst && Holds(t) && WellFormed(src)
    modifies t.cells
    ensures r.root == dst && fresh(r.cells - t.cells) && Holds(r)
    ensures r.node == MergeItem(t.node, src, path)
    decreases src, 2
  {
    r := MergeNode(dst, t, src, path);
    if dst.kind == Mapping && src.kind == Mapping {
      r := PruneMissingCell(dst, r, KeptNames(src.entries));
    }
  }

  /** `mergeNodePreserve`. */
  method MergeNode(dst: Cell, ghost t: Tree, src: Node, path: Path) returns (ghost r: Tree)
    requires t.root == dst && Holds(t) && WellFormed(src)
    modifies t.cells
    ensures r.root == dst && fresh(r.cells - t.cells) && Holds(r)
    ensures r.node == Merge(t.node, src, path)
    decreases src, 1
  {
    r := t;
    if src.kind == Mapping {
      if dst.kind != Mapping {
        r := CopyShallowInto(dst, t, src);
      }
      r := MergeMapping(dst, r, src, path);
    } else if src.kind == Sequence {
      if dst.kind == Scalar && dst.tag == "!!null" && src.items == [] {
        return;
      }
      if dst.kind != Sequence {
        dst.kind, dst.tag, dst.keys, dst.content := Sequence, "!!seq", [], [];
        r := Tree(dst, t.node.(kind := Sequence, tag := "!!seq", entries := [], items := []), [], t.cells);
      }
      r := MergeSequence(dst, r, src, path);
    } else if src.kind == Scalar || src.kind == Alias {
      dst.kind, dst.tag, dst.value := src.kind, src.tag, src.value;
      r := t.(node := t.node.(kind := src.kind, tag := src.tag, value := src.value));
    } else if src.kind == Document {
      r := CopyShallowInto(dst, t, src);
    }
  }

  /** The list part of `mergeNodePreserve`. */
  method MergeSequence(dst: Cell, ghost t: Tree, src: Node, path: Path) returns (ghost r: Tree)
    requires t.root == dst && Holds(t) && t.node.kind == Sequence && src.kind == Sequence && WellFormed(src)
    modifies t.cells
    ensures r.root == dst && fresh(r.cells - t.cells) && Holds(r)
    ensures r.node == t.node.(items := MergeItems(t.node.items, src, path))
    decreases src, 0
  {
    ghost var n := t.node.(items := MergeItems(t.node.items, src, path));
    var content;
    ghost var kids, cells;
    var ps := MatchItems(dst.content, t, src.items);
    content, kids, cells := MergeAll(dst.content, t, src, path, ps);
    dst.content := content;
    r := Tree(dst, n, kids, cells + {dst});
    assert r.cells - {dst} == cells;
  }

  /** Matches the linked list against the generated one. */
  method MatchItems(content: seq<Cell>, ghost t: Tree, news: seq<Node>) returns (ps: seq<int>)
    requires content == Roots(t.kids) && Nodes(t.kids) == t.node.items && Forest(t.kids, t.cells - {t.root})
    ensures ps == Picks(t.node.items, news, |news|) && Waiting(t, ps, 0, {})
  {
    var olds := ReadAll(content, t.kids, t.cells - {t.root});
    ps := Reorder(olds, news);
  }

  /** Old elements not among the first `i` picks are intact and apart from the new list. */
  ghost predicate Waiting(t: Tree, ps: seq<int>, i: nat, cells: set<Cell>)
    requires i <= |ps|
    reads t.cells
  {
    && Separate(t.kids, t.cells - {t.root})
    && (forall p :: 0 <= p < |t.kids| && p !in ps[..i] ==>
          t.kids[p].root in t.kids[p].cells && Holds(t.kids[p]) && t.kids[p].cells !! cells)
  }

  method MergeAll(olds: seq<Cell>, ghost t: Tree, src: Node, path: Path, ps: seq<int>)
    returns (content: seq<Cell>, ghost kids: seq<Tree>, ghost cells: set<Cell>)
    requires olds == Roots(t.kids) && Nodes(t.kids) == t.node.items && WellFormed(src)
    requires ps == Picks(t.node.items, src.items, |src.items|)
    requires t.root in t.cells && Waiting(t, ps, 0, {})
    modifies t.cells - {t.root}
    ensures content == Roots(kids) && Forest(kids, cells) && t.root !in cells && fresh(cells - t.cells)
    ensures Nodes(kids) == MergeItems(t.node.items, src, path)
    decreases src, -1
  {
    content, kids, cells := [], [], {};
    for i := 0 to |src.items|
      invariant content == Roots(kids) && fresh(cells - t.cells)
      invariant Merging(t, src, path, ps, i, kids, cells)
    {
      var c;
      c, kids, cells := MergeAppend(olds, t, src, path, ps, i, kids, cells);
      content := content + [c];
    }
  }

  /** What the loop over the list has done after `i` elements. */
  ghost predicate Merging(t: Tree, src: Node, path: Path, ps: seq<int>, i: nat, kids: seq<Tree>, cells: set<Cell>)
    requires i <= |ps| == |src.items|
    reads t.cells, cells
  {
    && Forest(kids, cells) && t.root !in cells
    && Nodes(kids) == MergeItems(t.node.items, src, path)[..i]
    && Waiting(t, ps, i, cells)
  }

  method MergeAppend(olds: seq<Cell>, ghost t: Tree, src: Node, path: Path, ps: seq<int>, i: nat,
                     ghost kids: seq<Tree>, ghost cells: set<Cell>)
    returns (c: Cell, ghost kids': seq<Tree>, ghost cells': set<Cell>)
    requires i < |src.items| && ps == Picks(t.node.items, src.items, |src.items|) && WellFormed(src)
    requires olds == Roots(t.kids) && Nodes(t.kids) == t.node.items && t.root in t.cells
    requires Merging(t, src, path, ps, i, kids, cells)
    modifies if ps[i] < 0 then {} else t.kids[ps[i]].cells
    ensures Roots(kids') == Roots(kids) + [c] && cells <= cells' && fresh(cells' - cells - t.cells)
    ensures Merging(t, src, path, ps, i + 1, kids', cells')
    decreases src.items[i], 5
  {
    ghost var v;
    PrefixGrows(MergeItems(t.node.items, src, path), i);
    c, v := MergeNext(olds, t, src, path, ps, i, kids, cells);
    ForestAppend(kids, cells, v);
    kids', cells' := kids + [v], cells + v.cells;
  }

  lemma MergeItemsAt(olds: seq<Node>, src: Node, path: Path, i: nat)
    requires i < |src.items|
    ensures var p := Picks(olds, src.items, |src.items|)[i];
            MergeItems(olds, src, path)[i] == if p < 0 then src.items[i] else MergeItem(olds[p], src.items[i], path)
  {
  }

  /** The next list element: a copy, or the old element it takes over. */
  method MergeNext(olds: seq<Cell>, ghost t: Tree, src: Node, path: Path, ps: seq<int>, i: nat,
                   ghost kids: seq<Tree>, ghost cells: set<Cell>)
    returns (c: Cell, ghost v: Tree)
    requires i < |src.items| && ps == Picks(t.node.items, src.items, |src.items|) && WellFormed(src)
    requires olds == Roots(t.kids) && Nodes(t.kids) == t.node.items && t.root in t.cells && t.root !in cells
    requires Waiting(t, ps, i, cells) && Forest(kids, cells)
    modifies if ps[i] < 0 then {} else t.kids[ps[i]].cells
    ensures v.root == c && Holds(v) && fresh(v.cells - t.cells) && v.cells !! cells && t.root !in v.cells
    ensures v.node == MergeItems(t.node.items, src, path)[i]
    ensures Waiting(t, ps, i + 1, cells + v.cells) && Forest(kids, cells)
    decreases src.items[i], 4
  {
    MergeItemsAt(t.node.items, src, path, i);
    if ps[i] < 0 {
      c, v := CopyOver(t, ps, i, kids, cells, src.items[i]);
    } else {
      YamlFrame.PicksInjective(t.node.items, src.items, |src.items|);
      assert t.kids[ps[i]].node == Nodes(t.kids)[ps[i]];
      c := olds[ps[i]];
      v := TakeOver(c, t, ps, i, kids, cells, src.items[i], path);
    }
  }

  method CopyOver(ghost t: Tree, ghost ps: seq<int>, ghost i: nat, ghost kids: seq<Tree>, ghost cells: set<Cell>,
                  src: Node)
    returns (c: Cell, ghost v: Tree)
    requires i < |ps| && WellFormed(src) && t.root in t.cells && Waiting(t, ps, i, cells) && Forest(kids, cells)
    ensures v.root == c && Holds(v) && fresh(v.cells) && v.node == src
    ensures Waiting(t, ps, i + 1, cells + v.cells) && Forest(kids, cells)
    decreases src, 3
  {
    c, v := DeepCopy(src);
    assert ps[..i + 1] == ps[..i] + [ps[i]];
  }

  method TakeOver(c: Cell, ghost t: Tree, ghost ps: seq<int>, ghost i: nat,
                  ghost kids: seq<Tree>, ghost cells: set<Cell>, src: Node, path: Path)
    returns (ghost v: Tree)
    requires i < |ps| && 0 <= ps[i] < |t.kids| && c == t.kids[ps[i]].root && ps[i] !in ps[..i] && WellFormed(src)
    requires t.root in t.cells && t.root !in cells && Waiting(t, ps, i, cells) && Forest(kids, cells)
    modifies t.kids[ps[i]].cells
    ensures v.root == c && Holds(v) && fresh(v.cells - t.cells) && v.cells !! cells && t.root !in v.cells
    ensures v.node == MergeItem(t.kids[ps[i]].node, src, path)
    ensures Waiting(t, ps, i + 1, cells + v.cells) && Forest(kids, cells)
    decreases src, 3
  {
    v := MergeItemCell(c, t.kids[ps[i]], src, path);
    assert ps[..i + 1] == ps[..i] + [ps[i]];
  }

  /**
   The merge step of saving a configuration: afterwards the file's tree reads
   like the generated one and keeps its own layout and comments.
   */
  method MergeDocument(dst: Cell, ghost t: Tree, src: Node) returns (ghost r: Tree)
    requires t.root == dst && Holds(t) && t.node.kind == Mapping
    requires src.kind == Mapping && WellFormed(src) && UniqueKeys(src)
    modifies t.cells
    ensures r.root == dst && fresh(r.cells - t.cells) && Holds(r)
    ensures YamlReadBack.ReadsBack([], src, r.node, false) && YamlDefaults.ReadsAs([], src, r.node, false)
    ensures YamlFrame.KeepsLayout(t.node, src, r.node)
  {
    r := MergeMapping(dst, t, src, []);
    YamlReadBack.MergeReadsBack(t.node, src, []);
    YamlDefaults.MergeReadsAs(t.node, src, []);
    YamlFrame.MergeKeepsLayout(t.node, src, []);
  }
}
