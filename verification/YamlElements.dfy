/**
 Which old list element a generated one takes over, and so whose comments it
 keeps: the one with the same identity, the same text, or the same structure.
 */
module YamlElements {
  import opened Text
  import opened YamlMerge

  // ---------------------------------------------------------------------------
  // Identity
  // ---------------------------------------------------------------------------

  /** A scalar entry under this key, compared without case and outer blanks. */
  predicate IsField(e: Entry, name: string) {
    e.val.kind == Scalar && ToLower(TrimSpace(e.Name())) == ToLower(name)
  }

  function FieldText(e: Entry): string { TrimSpace(e.val.value) }

  /** Entry `i` is the first field of this name. */
  predicate FirstField(es: seq<Entry>, name: string, i: int) {
    0 <= i < |es| && IsField(es[i], name) && forall j :: 0 <= j < i ==> !IsField(es[j], name)
  }

  /** The first field decides, also when it is blank. */
  lemma {:induction false} MappingScalarIs(es: seq<Entry>, name: string, i: int)
    requires FirstField(es, name, i) || (i == -1 && forall j :: 0 <= j < |es| ==> !IsField(es[j], name))
    ensures MappingScalar(es, name) == if i < 0 then "" else FieldText(es[i])
    decreases |es|
  {
    if es != [] && !IsField(es[0], name) {
      MappingScalarIs(es[1..], name, if i < 0 then -1 else i - 1);
    }
  }

  /** The field names that identify an element, the most telling first. */
  const NAMES := ["id", "name", "alias", "api-key", "api_key", "apikey", "key", "provider", "model"]

  /** The element has a text under this name. */
  ghost predicate HasText(n: Node, name: string) {
    exists i :: FirstField(n.entries, name, i) && FieldText(n.entries[i]) != ""
  }

  lemma HasTextIff(n: Node, name: string)
    ensures HasText(n, name) <==> MappingScalar(n.entries, name) != ""
    ensures forall i :: FirstField(n.entries, name, i) ==> MappingScalar(n.entries, name) == FieldText(n.entries[i])
  {
    forall i | FirstField(n.entries, name, i) ensures MappingScalar(n.entries, name) == FieldText(n.entries[i]) {
      MappingScalarIs(n.entries, name, i);
    }
    if !exists i :: FirstField(n.entries, name, i) {
      NoFirstField(n.entries, name, |n.entries|);
      MappingScalarIs(n.entries, name, -1);
    }
  }

  lemma {:induction false} NoFirstField(es: seq<Entry>, name: string, k: nat)
    requires k <= |es| && forall i :: !FirstField(es, name, i)
    ensures forall j :: 0 <= j < k ==> !IsField(es[j], name)
    decreases k
  {
    if k > 0 {
      NoFirstField(es, name, k - 1);
      assert !FirstField(es, name, k - 1);
    }
  }

  lemma {:induction false} IdentityAmongIs(es: seq<Entry>, names: seq<string>, k: nat)
    requires k < |names| && MappingScalar(es, names[k]) != ""
    requires forall j :: 0 <= j < k ==> MappingScalar(es, names[j]) == ""
    ensures IdentityAmong(es, names) == names[k] + "=" + MappingScalar(es, names[k])
    decreases k
  {
    if k > 0 {
      IdentityAmongIs(es, names[1..], k - 1);
    }
  }

  lemma {:induction false} NoIdentityAmong(es: seq<Entry>, names: seq<string>)
    requires forall j :: 0 <= j < |names| ==> MappingScalar(es, names[j]) == ""
    ensures IdentityAmong(es, names) == ""
    decreases |names|
  {
    if names != [] {
      NoIdentityAmong(es, names[1..]);
    }
  }

  /** An element is identified by the most telling field that has a text, and by that text. */
  lemma IdentityIs(n: Node, k: nat, i: int)
    requires k < |NAMES| && FirstField(n.entries, NAMES[k], i) && FieldText(n.entries[i]) != ""
    requires forall j :: 0 <= j < k ==> !HasText(n, NAMES[j])
    ensures Identity(n) == NAMES[k] + "=" + FieldText(n.entries[i])
  {
    assert NAMES == IDENTITY_KEYS;
    forall j | 0 <= j <= k ensures HasText(n, NAMES[j]) <==> MappingScalar(n.entries, NAMES[j]) != "" {
      HasTextIff(n, NAMES[j]);
    }
    HasTextIff(n, NAMES[k]);
    IdentityAmongIs(n.entries, IDENTITY_KEYS, k);
  }

  predicate Telling(e: Entry) { e.val.kind == Scalar && FieldText(e) != "" }

  lemma {:induction false} FirstScalarIs(es: seq<Entry>, i: int)
    requires i == -1 || (0 <= i < |es| && Telling(es[i]))
    requires forall j :: 0 <= j < (if i < 0 then |es| else i) ==> !Telling(es[j])
    ensures FirstScalar(es) == if i < 0 then "" else ToLower(TrimSpace(es[i].Name())) + "=" + FieldText(es[i])
    decreases |es|
  {
    if es != [] && !Telling(es[0]) {
      FirstScalarIs(es[1..], if i < 0 then -1 else i - 1);
    }
  }

  /** Without such a field, the first scalar with a text identifies it; with none, nothing does. */
  lemma IdentityOtherwise(n: Node, i: int)
    requires forall j :: 0 <= j < |NAMES| ==> !HasText(n, NAMES[j])
    requires i == -1 || (0 <= i < |n.entries| && Telling(n.entries[i]))
    requires forall j :: 0 <= j < (if i < 0 then |n.entries| else i) ==> !Telling(n.entries[j])
    ensures Identity(n) ==
            if i < 0 then "" else ToLower(TrimSpace(n.entries[i].Name())) + "=" + FieldText(n.entries[i])
  {
    assert NAMES == IDENTITY_KEYS;
    forall j | 0 <= j < |NAMES| ensures MappingScalar(n.entries, IDENTITY_KEYS[j]) == "" {
      HasTextIff(n, NAMES[j]);
    }
    NoIdentityAmong(n.entries, IDENTITY_KEYS);
    FirstScalarIs(n.entries, i);
  }

  // ---------------------------------------------------------------------------
  // Structure
  // ---------------------------------------------------------------------------

  /** What is left of a tree without comments, tags and outer blanks. */
  function Shape(n: Node): Node
    decreases n
  {
    match n.kind
    case Mapping =>
      Node(Mapping, "", "", "",
           seq(|n.entries|, i requires 0 <= i < |n.entries| =>
             Entry(Shape(n.entries[i].key), Shape(n.entries[i].val))), [])
    case Sequence =>
      Node(Sequence, "", "", "", [], seq(|n.items|, i requires 0 <= i < |n.items| => Shape(n.items[i])))
    case _ => Node(n.kind, "", TrimSpace(n.value), "", [], [])
  }

  /** Structural equality is equality of shapes. */
  lemma {:induction false} SameStructureIff(a: Node, b: Node)
    ensures SameStructure(a, b) <==> Shape(a) == Shape(b)
    decreases a
  {
    if a.kind == b.kind == Mapping && |a.entries| == |b.entries| {
      forall i | 0 <= i < |a.entries|
        ensures SameStructure(a.entries[i].key, b.entries[i].key) <==>
                Shape(a).entries[i].key == Shape(b).entries[i].key
        ensures SameStructure(a.entries[i].val, b.entries[i].val) <==>
                Shape(a).entries[i].val == Shape(b).entries[i].val
      {
        SameStructureIff(a.entries[i].key, b.entries[i].key);
        SameStructureIff(a.entries[i].val, b.entries[i].val);
      }
      assert Shape(a) == Shape(b) <==> Shape(a).entries == Shape(b).entries;
      assert Shape(a).entries == Shape(b).entries <==>
             forall i :: 0 <= i < |a.entries| ==> Shape(a).entries[i] == Shape(b).entries[i];
    } else if a.kind == b.kind == Sequence && |a.items| == |b.items| {
      forall i | 0 <= i < |a.items|
        ensures SameStructure(a.items[i], b.items[i]) <==> Shape(a).items[i] == Shape(b).items[i]
      {
        SameStructureIff(a.items[i], b.items[i]);
      }
      assert Shape(a).items == Shape(b).items <==>
             forall i :: 0 <= i < |a.items| ==> Shape(a).items[i] == Shape(b).items[i];
    } else if a.kind == b.kind == Mapping {
      assert |Shape(a).entries| != |Shape(b).entries|;
    } else if a.kind == b.kind == Sequence {
      assert |Shape(a).items| != |Shape(b).items|;
    }
  }

  /** Keys that are collections carry no text of their own. */
  predicate PlainKeys(es: seq<Entry>) {
    forall i :: 0 <= i < |es| ==> (es[i].key.kind == Mapping || es[i].key.kind == Sequence ==> es[i].Name() == "")
  }

  /** The entries give the same fields with the same texts. */
  predicate SameFields(a: seq<Entry>, b: seq<Entry>) {
    |a| == |b| &&
    forall i :: 0 <= i < |a| ==>
      && TrimSpace(a[i].Name()) == TrimSpace(b[i].Name()) && a[i].val.kind == b[i].val.kind
      && (a[i].val.kind == Scalar ==> FieldText(a[i]) == FieldText(b[i]))
  }

  lemma {:induction false} SameFieldsSameScalar(a: seq<Entry>, b: seq<Entry>, name: string)
    requires SameFields(a, b)
    ensures MappingScalar(a, name) == MappingScalar(b, name) && FirstScalar(a) == FirstScalar(b)
    decreases |a|
  {
    if a != [] {
      SameFieldsSameScalar(a[1..], b[1..], name);
    }
  }

  lemma {:induction false} SameFieldsSameIdentity(a: seq<Entry>, b: seq<Entry>, names: seq<string>)
    requires SameFields(a, b)
    ensures IdentityAmong(a, names) == IdentityAmong(b, names)
    decreases |names|
  {
    if names != [] {
      SameFieldsSameScalar(a, b, names[0]);
      SameFieldsSameIdentity(a, b, names[1..]);
    }
  }

  /** Elements of the same structure have the same identity. */
  lemma SameStructureSameIdentity(a: Node, b: Node)
    requires SameStructure(a, b) && a.kind == Mapping && PlainKeys(a.entries) && PlainKeys(b.entries)
    ensures Identity(a) == Identity(b)
  {
    forall i | 0 <= i < |a.entries|
      ensures && TrimSpace(a.entries[i].Name()) == TrimSpace(b.entries[i].Name())
              && a.entries[i].val.kind == b.entries[i].val.kind
              && (a.entries[i].val.kind == Scalar ==> FieldText(a.entries[i]) == FieldText(b.entries[i]))
    {
      assert SameStructure(a.entries[i].key, b.entries[i].key) && SameStructure(a.entries[i].val, b.entries[i].val);
    }
    SameFieldsSameIdentity(a.entries, b.entries, IDENTITY_KEYS);
    SameFieldsSameScalar(a.entries, b.entries, "");
  }

  // ---------------------------------------------------------------------------
  // Taking over
  // ---------------------------------------------------------------------------

  /** The same element before and after: by identity, by text, or else by shape. */
  predicate Corresponds(prior: Node, target: Node) {
    prior.kind == target.kind &&
    if target.kind == Mapping && Identity(target) != "" then Identity(prior) == Identity(target)
    else if target.kind == Scalar && TrimSpace(target.value) != ""
    then TrimSpace(prior.value) == TrimSpace(target.value)
    else Shape(prior) == Shape(target)
  }

  predicate AllPlain(ns: seq<Node>) { forall i :: 0 <= i < |ns| ==> PlainKeys(ns[i].entries) }

  /** The element is known by its identity or its text. */
  predicate Identified(target: Node) {
    || (target.kind == Mapping && Identity(target) != "")
    || (target.kind == Scalar && TrimSpace(target.value) != "")
  }

  lemma CorrespondsIff(prior: Node, target: Node)
    requires PlainKeys(prior.entries) && PlainKeys(target.entries)
    ensures StrongMatch(prior, target) <==> Identified(target) && Corresponds(prior, target)
    ensures SameStructure(prior, target) ==> Corresponds(prior, target)
    ensures !Identified(target) && Corresponds(prior, target) ==> SameStructure(prior, target)
  {
    SameStructureIff(prior, target);
    if SameStructure(prior, target) && target.kind == Mapping {
      SameStructureSameIdentity(prior, target);
    }
  }

  /** A generated element takes over the first old element still free that corresponds to it, if there is one. */
  lemma TakesOverFirstFree(olds: seq<Node>, used: set<int>, target: Node)
    requires AllPlain(olds) && PlainKeys(target.entries)
    ensures var p := MatchElement(olds, used, target);
            && (p >= 0 ==> p !in used && Corresponds(olds[p], target))
            && forall j :: 0 <= j < (if p < 0 then |olds| else p) && j !in used ==> !Corresponds(olds[j], target)
  {
    forall j | 0 <= j < |olds|
      ensures StrongMatch(olds[j], target) <==> Identified(target) && Corresponds(olds[j], target)
      ensures SameStructure(olds[j], target) ==> Corresponds(olds[j], target)
      ensures !Identified(target) && Corresponds(olds[j], target) ==> SameStructure(olds[j], target)
    {
      CorrespondsIff(olds[j], target);
    }
  }

  /** A merged element keeps the comments of the element it takes over; a new one comes as generated. */
  lemma ElementKeepsItsComments(olds: seq<Node>, src: Node, path: Path, i: nat)
    requires i < |src.items|
    ensures var p := Picks(olds, src.items, |src.items|)[i];
            if p < 0 then MergeItems(olds, src, path)[i] == src.items[i]
            else MergeItems(olds, src, path)[i].meta == olds[p].meta
  {
  }

  // ---------------------------------------------------------------------------
  // Removed keys and emptied lists
  // ---------------------------------------------------------------------------

  lemma {:induction false} PruneMissingIs(es: seq<Entry>, names: set<string>)
    ensures forall e :: e in PruneMissing(es, names) <==> e in es && TrimSpace(e.Name()) in names
    decreases |es|
  {
    if es != [] {
      PruneMissingIs(es[..|es| - 1], names);
      assert es == es[..|es| - 1] + [es[|es| - 1]];
    }
  }

  /** What stays of a list element stays in its order. */
  lemma {:induction false} PruneMissingInOrder(a: seq<Entry>, b: seq<Entry>, names: set<string>)
    ensures PruneMissing(a + b, names) == PruneMissing(a, names) + PruneMissing(b, names)
    decreases |b|
  {
    if b == [] {
      assert a + b == a;
    } else {
      PruneMissingInOrder(a, b[..|b| - 1], names);
      assert (a + b)[..|a + b| - 1] == a + b[..|b| - 1];
    }
  }

  /** A list element that was taken over has no key left that is not generated for it. */
  lemma TakenOverElementLosesRemovedKeys(prior: Node, src: Node, path: Path, e: Entry)
    requires src.kind == Mapping && e in MergeItem(prior, src, path).entries
    ensures exists i :: 0 <= i < |src.entries| && TrimSpace(src.entries[i].Name()) == TrimSpace(e.Name()) != ""
  {
    PruneMissingIs(Merge(prior, src, path).entries, KeptNames(src.entries));
    assert TrimSpace(e.Name()) in KeptNames(src.entries);
  }

  /** An emptied list leaves a null as it is and empties everything else; other lists replace what is no list. */
  lemma ListOverOther(dst: Node, src: Node, path: Path)
    requires src.kind == Sequence
    ensures src.items == [] && dst.kind == Scalar && dst.tag == "!!null" ==> Merge(dst, src, path) == dst
    ensures !(src.items == [] && dst.kind == Scalar && dst.tag == "!!null") ==>
              Merge(dst, src, path).kind == Sequence && |Merge(dst, src, path).items| == |src.items|
    ensures dst.kind != Sequence && !(src.items == [] && dst.kind == Scalar && dst.tag == "!!null") ==>
              Merge(dst, src, path) == Node(Sequence, "!!seq", dst.value, dst.meta, [], src.items)
  {
    if dst.kind != Sequence {
      assert MergeItems([], src, path) == src.items;
    }
  }

  /** A mapping over something else takes over its tag and value and keeps the comments of what was there. */
  lemma MappingOverOther(dst: Node, src: Node, path: Path)
    requires src.kind == Mapping && dst.kind != Mapping
    ensures var r := Merge(dst, src, path);
            r.kind == Mapping && r.tag == src.tag && r.value == src.value && r.items == src.items && r.meta == dst.meta
  {
  }

  /** A scalar or alias replaces kind, tag and value and leaves comments and any children behind. */
  lemma ScalarOverOther(dst: Node, src: Node, path: Path)
    requires src.kind == Scalar || src.kind == Alias
    ensures Merge(dst, src, path) == Node(src.kind, src.tag, src.value, dst.meta, dst.entries, dst.items)
  {
  }
}
