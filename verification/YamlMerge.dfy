/**
 The comment-preserving merge of a generated YAML tree into the tree of the
 file on disk. A node carries its comments, style and anchor in `meta`: the
 merge rewrites kind, tag, value and children of a destination node and keeps
 `meta`, which is how comments survive.
 */
module YamlMerge {
  import opened Text

  datatype Kind = Unset | Document | Sequence | Mapping | Scalar | Alias

  /** `entries` are the children of a mapping, `items` those of any other node. */
  datatype Node = Node(kind: Kind, tag: string, value: string, meta: string,
                       entries: seq<Entry>, items: seq<Node>)

  datatype Entry = Entry(key: Node, val: Node) {
    function Name(): string { key.value }
  }

  type Path = seq<string>

  // ---------------------------------------------------------------------------
  // Keys
  // ---------------------------------------------------------------------------

  /** Position of the first entry named `name`, or -1. */
  function FindKey(es: seq<Entry>, name: string): (r: int)
    ensures -1 <= r < |es|
    ensures r >= 0 ==> es[r].Name() == name
    ensures forall j :: 0 <= j < (if r < 0 then |es| else r) ==> es[j].Name() != name
  {
    if es == [] then -1
    else
      var r := FindKey(es[..|es| - 1], name);
      if r >= 0 then r
      else if es[|es| - 1].Name() == name then |es| - 1
      else -1
  }

  /** Only this position satisfies the contract of `FindKey`. */
  lemma FindKeyIs(es: seq<Entry>, name: string, r: int)
    requires -1 <= r < |es|
    requires r >= 0 ==> es[r].Name() == name
    requires forall j :: 0 <= j < (if r < 0 then |es| else r) ==> es[j].Name() != name
    ensures FindKey(es, name) == r
  {
  }

  predicate DistinctNames(es: seq<Entry>) {
    forall i, j :: 0 <= i < j < |es| ==> es[i].Name() != es[j].Name()
  }

  /** Mapping keys are unique at every level, as YAML 1.2.2 section 3.2.1.1 demands. */
  predicate UniqueKeys(n: Node)
    decreases n
  {
    match n.kind
    case Mapping => DistinctNames(n.entries) && forall i :: 0 <= i < |n.entries| ==> UniqueKeys(n.entries[i].val)
    case Sequence => forall i :: 0 <= i < |n.items| ==> UniqueKeys(n.items[i])
    case _ => true
  }

  // ---------------------------------------------------------------------------
  // Zero values and known defaults
  // ---------------------------------------------------------------------------

  predicate IsZeroValue(n: Node)
    decreases n
  {
    match n.kind
    case Scalar =>
      if n.tag == "!!bool" then n.value == "false"
      else if n.tag == "!!int" || n.tag == "!!float" then n.value == "0" || n.value == "0.0"
      else if n.tag == "!!str" then n.value == ""
      else n.tag == "!!null"
    case Sequence => forall i :: 0 <= i < |n.items| ==> IsZeroValue(n.items[i])
    case Mapping => forall i :: 0 <= i < |n.entries| ==> IsZeroValue(n.entries[i].val)
    case _ => false
  }

  const DEFAULT_PPROF_ADDR := "127.0.0.1:8316"
  const DEFAULT_PANEL_REPOSITORY := "https://github.com/kittors/codeProxy"

  function JoinDots(path: Path): string {
    if path == [] then "" else if |path| == 1 then path[0] else path[0] + "." + JoinDots(path[1..])
  }

  predicate IsStringDefault(full: string, value: string) {
    || (full == "pprof.addr" && value == DEFAULT_PPROF_ADDR)
    || (full == "remote-management.panel-github-repository" && value == DEFAULT_PANEL_REPOSITORY)
    || (full == "routing.strategy" && value == "round-robin")
  }

  predicate IsKnownDefault(path: Path, n: Node) {
    || IsZeroValue(n)
    || (path != [] && n.kind == Scalar && n.tag == "!!str" && IsStringDefault(JoinDots(path), n.value))
    || (path != [] && n.kind == Scalar && n.tag == "!!int" && JoinDots(path) == "error-logs-max-files"
        && n.value == "10")
  }

  predicate EmptyCollection(n: Node) {
    (n.kind == Mapping && n.entries == []) || (n.kind == Sequence && n.items == [])
  }

  /** `pruneKnownDefaultsInNewNode`. */
  function Prune(path: Path, n: Node): (r: Node)
    ensures r.(entries := n.entries, items := n.items) == n
    decreases n, 1, 0
  {
    match n.kind
    case Mapping => n.(entries := PruneEntries(path, n, |n.entries|))
    case Sequence => n.(items := seq(|n.items|, i requires 0 <= i < |n.items| => Prune(path, n.items[i])))
    case _ => n
  }

  /** The entries that survive among the first `k`. */
  function PruneEntries(path: Path, n: Node, k: nat): seq<Entry>
    requires k <= |n.entries|
    decreases n, 0, k
  {
    if k == 0 then []
    else
      var kept := PruneEntries(path, n, k - 1);
      var e := n.entries[k - 1];
      var child := path + [e.Name()];
      if IsKnownDefault(child, e.val) then kept
      else
        var v := Prune(child, e.val);
        if EmptyCollection(v) then kept else kept + [e.(val := v)]
  }

  // ---------------------------------------------------------------------------
  // Matching list elements
  // ---------------------------------------------------------------------------

  /** First scalar value under `name`, compared without case and outer blanks. */
  function MappingScalar(es: seq<Entry>, name: string): string {
    if es == [] then ""
    else if es[0].val.kind == Scalar && ToLower(TrimSpace(es[0].Name())) == ToLower(name)
            then TrimSpace(es[0].val.value)
    else MappingScalar(es[1..], name)
  }

  const IDENTITY_KEYS := ["id", "name", "alias", "api-key", "api_key", "apikey", "key", "provider", "model"]

  function IdentityAmong(es: seq<Entry>, names: seq<string>): string {
    if names == [] then ""
    else
      var v := MappingScalar(es, names[0]);
      if v != "" then names[0] + "=" + v else IdentityAmong(es, names[1..])
  }

  function FirstScalar(es: seq<Entry>): string {
    if es == [] then ""
    else if es[0].val.kind == Scalar && TrimSpace(es[0].val.value) != "" then
      ToLower(TrimSpace(es[0].Name())) + "=" + TrimSpace(es[0].val.value)
    else FirstScalar(es[1..])
  }

  /** `sequenceElementIdentity`; "" when the mapping has none. */
  function Identity(n: Node): string {
    var id := IdentityAmong(n.entries, IDENTITY_KEYS);
    if id != "" then id else FirstScalar(n.entries)
  }

  /** `nodesStructurallyEqual`; an alias is known by its name. */
  predicate SameStructure(a: Node, b: Node)
    decreases a
  {
    a.kind == b.kind &&
    match a.kind
    case Mapping =>
      |a.entries| == |b.entries| &&
      forall i :: 0 <= i < |a.entries| ==>
        SameStructure(a.entries[i].key, b.entries[i].key) && SameStructure(a.entries[i].val, b.entries[i].val)
    case Sequence =>
      |a.items| == |b.items| && forall i :: 0 <= i < |a.items| ==> SameStructure(a.items[i], b.items[i])
    case _ => TrimSpace(a.value) == TrimSpace(b.value)
  }

  /** First pass of `matchSequenceElement`: the same identity, or the same scalar text. */
  predicate StrongMatch(prior: Node, target: Node) {
    prior.kind == target.kind &&
    match target.kind
    case Mapping => Identity(target) != "" && Identity(prior) == Identity(target)
    case Scalar => TrimSpace(target.value) != "" && TrimSpace(prior.value) == TrimSpace(target.value)
    case _ => false
  }

  predicate Matches(strong: bool, prior: Node, target: Node) {
    if strong then StrongMatch(prior, target) else SameStructure(prior, target)
  }

  /** First index at or after `i` that is not used and matches. */
  function FirstMatch(olds: seq<Node>, used: set<int>, target: Node, strong: bool, i: nat): (r: int)
    requires i <= |olds|
    ensures r == -1 || (i <= r < |olds| && r !in used && Matches(strong, olds[r], target))
    ensures forall j :: i <= j < (if r < 0 then |olds| else r) && j !in used ==> !Matches(strong, olds[j], target)
    decreases |olds| - i
  {
    if i == |olds| then -1
    else if i !in used && Matches(strong, olds[i], target) then i
    else FirstMatch(olds, used, target, strong, i + 1)
  }

  /** `matchSequenceElement`. */
  function MatchElement(olds: seq<Node>, used: set<int>, target: Node): (r: int)
    ensures r == -1 || (0 <= r < |olds| && r !in used)
  {
    var r := FirstMatch(olds, used, target, true, 0);
    if r >= 0 then r else FirstMatch(olds, used, target, false, 0)
  }

  function Used(picks: seq<int>): set<int> { set i | 0 <= i < |picks| :: picks[i] }

  /** `reorderSequenceForMerge`: for each of the first `k` new items the old item it takes over, or -1. */
  function Picks(olds: seq<Node>, news: seq<Node>, k: nat): (ps: seq<int>)
    requires k <= |news|
    ensures |ps| == k
    ensures forall i :: 0 <= i < k ==> -1 <= ps[i] < |olds|
  {
    if k == 0 then []
    else
      var ps := Picks(olds, news, k - 1);
      ps + [MatchElement(olds, Used(ps), news[k - 1])]
  }

  // ---------------------------------------------------------------------------
  // The merge
  // ---------------------------------------------------------------------------

  /** `copyNodeShallow`: everything but the comments of `dst`. */
  function CopyShallow(dst: Node, src: Node): Node {
    src.(meta := dst.meta)
  }

  function KeptNames(src: seq<Entry>): set<string> {
    set i | 0 <= i < |src| && TrimSpace(src[i].Name()) != "" :: TrimSpace(src[i].Name())
  }

  /** `pruneMissingMapKeys`: the entries whose trimmed name is among `names`. */
  function PruneMissing(dst: seq<Entry>, names: set<string>): seq<Entry> {
    if dst == [] then []
    else
      var kept := PruneMissing(dst[..|dst| - 1], names);
      var e := dst[|dst| - 1];
      if TrimSpace(e.Name()) in names then kept + [e] else kept
  }

  /** `mergeNodePreserve`. */
  function Merge(dst: Node, src: Node, path: Path): (r: Node)
    ensures r.meta == dst.meta
    decreases src, 1, 0
  {
    match src.kind
    case Mapping =>
      var d := if dst.kind != Mapping then CopyShallow(dst, src) else dst;
      MergeEntries(d, src, |src.entries|, path)
    case Sequence =>
      if dst.kind == Scalar && dst.tag == "!!null" && src.items == [] then dst
      else
        var d := if dst.kind != Sequence
            then dst.(kind := Sequence, tag := "!!seq", items := [], entries := []) else dst;
        d.(items := MergeItems(d.items, src, path))
    case Scalar => dst.(kind := src.kind, tag := src.tag, value := src.value)
    case Alias => dst.(kind := src.kind, tag := src.tag, value := src.value)
    case Unset => dst
    case Document => CopyShallow(dst, src)
  }

  /** One list element: a taken-over old element is merged and trimmed to the generated keys. */
  function MergeItem(prior: Node, src: Node, path: Path): Node
    decreases src, 2, 0
  {
    var m := Merge(prior, src, path);
    if m.kind == Mapping && src.kind == Mapping
    then m.(entries := PruneMissing(m.entries, KeptNames(src.entries))) else m
  }

  function MergeItems(olds: seq<Node>, src: Node, path: Path): (r: seq<Node>)
    ensures |r| == |src.items|
    decreases src, 0, 0
  {
    var ps := Picks(olds, src.items, |src.items|);
    seq(|src.items|, i requires 0 <= i < |src.items| =>
      if ps[i] < 0 then src.items[i] else MergeItem(olds[ps[i]], src.items[i], path))
  }

  /** A key of `src` that `dst` lacks is added only when it says more than the defaults. */
  function AddEntry(es: seq<Entry>, e: Entry, child: Path): seq<Entry> {
    var v := Prune(child, e.val);
    if EmptyCollection(v) then es
    else if v.kind != Mapping && v.kind != Sequence && IsKnownDefault(child, v) then es
    else es + [e.(val := v)]
  }

  /** One iteration of `mergeMappingPreserve`. */
  function MergeEntry(es: seq<Entry>, e: Entry, path: Path): seq<Entry>
    decreases e, 0, 0
  {
    var child := path + [e.Name()];
    var j := FindKey(es, e.Name());
    if j >= 0 then es[j := es[j].(val := Merge(es[j].val, e.val, child))] else AddEntry(es, e, child)
  }

  /** `mergeMappingPreserve` after its first `k` source entries. */
  function MergeEntries(dst: Node, src: Node, k: nat, path: Path): (r: Node)
    requires k <= |src.entries|
    ensures r.(entries := dst.entries) == dst
    decreases src, 0, k
  {
    if k == 0 then dst
    else
      var d := MergeEntries(dst, src, k - 1, path);
      d.(entries := MergeEntry(d.entries, src.entries[k - 1], path))
  }
}
