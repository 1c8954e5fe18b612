/**
 Which values the merge may leave out, said by what they mean: false, zero, the
 empty text, null, collections of such, and four named settings.
 */
module YamlDefaults {
  import opened Text
  import opened YamlMerge
  import opened YamlReadBack

  // ---------------------------------------------------------------------------
  // What a scalar means
  // ---------------------------------------------------------------------------

  datatype Meaning = Flag(b: bool) | Whole(i: int) | Decimal(x: real) | Words(s: string) | Nothing | Unknown

  function DotIn(s: string): (i: int)
    ensures -1 <= i < |s| && (i >= 0 ==> s[i] == '.')
  {
    if s == "" then -1 else if s[0] == '.' then 0
    else
      var i := DotIn(s[1..]);
      if i < 0 then -1 else i + 1
  }

  function Power(n: nat): (p: real)
    ensures p >= 1.0
  {
    if n == 0 then 1.0 else 10.0 * Power(n - 1)
  }

  /** A number with or without a decimal point. */
  function ReadDecimal(s: string): Option<real> {
    var i := DotIn(s);
    if s != "" && AllDigits(s) then Some(NatOf(s) as real)
    else if i >= 0 && AllDigits(s[..i]) && AllDigits(s[i + 1..]) then
      Some(NatOf(s[..i]) as real + NatOf(s[i + 1..]) as real / Power(|s| - i - 1))
    else None
  }

  /** What a scalar node means to the program that reads it, by its tag and its text. */
  function MeaningOf(n: Node): Meaning {
    if n.tag == "!!bool" then
      if n.value == "true" then Flag(true) else if n.value == "false" then Flag(false) else Unknown
    else if n.tag == "!!int" then
      (match ParseInt(n.value) case Some(i) => Whole(i) case None => MeaningOfDecimal(n.value))
    else if n.tag == "!!float" then MeaningOfDecimal(n.value)
    else if n.tag == "!!str" then Words(n.value)
    else if n.tag == "!!null" then Nothing
    else Unknown
  }

  function MeaningOfDecimal(s: string): Meaning {
    match ReadDecimal(s) case Some(x) => Decimal(x) case None => Unknown
  }

  predicate MeansZero(m: Meaning) {
    m == Flag(false) || m == Whole(0) || m == Decimal(0.0) || m == Words("") || m == Nothing
  }

  /** Nothing below the node says more than false, zero, empty or null. */
  ghost predicate AllZero(n: Node)
    decreases n
  {
    match n.kind
    case Scalar => MeansZero(MeaningOf(n))
    case Sequence => forall i :: 0 <= i < |n.items| ==> AllZero(n.items[i])
    case Mapping => forall i :: 0 <= i < |n.entries| ==> AllZero(n.entries[i].val)
    case _ => false
  }

  // ---------------------------------------------------------------------------
  // Zero values
  // ---------------------------------------------------------------------------

  lemma ZeroTexts(s: string, t: string)
    requires s == "0" && t == "0.0"
    ensures ParseInt(s) == Some(0) && ReadDecimal(s) == Some(0.0)
    ensures ParseInt(t) == None && ReadDecimal(t) == Some(0.0)
  {
    assert s[..0] == "" && NatOf(s) == 0;
    assert t[1..][0] == '.' && DotIn(t[1..]) == 0 && DotIn(t) == 1;
    assert !AllDigits(t) by { assert !IsDigit(t[1]); }
    assert t[..1] == s && t[2..] == s;
  }

  /** Whatever is left out as a zero value means nothing but zero. */
  lemma {:induction false} ZeroValueMeansZero(n: Node)
    requires IsZeroValue(n)
    ensures AllZero(n)
    decreases n
  {
    match n.kind
    case Scalar => ZeroTexts("0", "0.0");
    case Sequence =>
      forall i | 0 <= i < |n.items| ensures AllZero(n.items[i]) {
        ZeroValueMeansZero(n.items[i]);
      }
    case Mapping =>
      forall i | 0 <= i < |n.entries| ensures AllZero(n.entries[i].val) {
        ZeroValueMeansZero(n.entries[i].val);
      }
    case _ =>
  }

  /** Scalars as the encoder writes them: numerals without spare zeros. */
  ghost predicate EncodedScalar(n: Node) {
    && (n.tag == "!!int" ==> exists i :: n.value == FormatInt(i))
    && (n.tag == "!!float" ==> (ReadDecimal(n.value) == Some(0.0) ==> n.value == "0"))
  }

  ghost predicate Encoded(n: Node)
    decreases n
  {
    match n.kind
    case Scalar => EncodedScalar(n)
    case Sequence => forall i :: 0 <= i < |n.items| ==> Encoded(n.items[i])
    case Mapping => forall i :: 0 <= i < |n.entries| ==> Encoded(n.entries[i].val)
    case _ => true
  }

  lemma EncodedIntIsZeroIff(i: int)
    ensures FormatInt(i) == "0" <==> i == 0
    ensures FormatInt(i) != "0.0" && ParseInt(FormatInt(i)) == Some(i)
  {
    ParseFormat(i);
    FormatIntInjective(i, 0);
    var t := "0.0";
    ZeroTexts("0", t);
  }

  /** In an encoded tree the zero values are exactly what means zero. */
  lemma {:induction false} EncodedZeroIff(n: Node)
    requires Encoded(n)
    ensures IsZeroValue(n) <==> AllZero(n)
    decreases n
  {
    match n.kind
    case Scalar =>
      if IsZeroValue(n) {
        ZeroValueMeansZero(n);
      }
      if n.tag == "!!int" {
        var i :| n.value == FormatInt(i);
        EncodedIntIsZeroIff(i);
      }
    case Sequence =>
      forall i | 0 <= i < |n.items| ensures IsZeroValue(n.items[i]) <==> AllZero(n.items[i]) {
        EncodedZeroIff(n.items[i]);
      }
    case Mapping =>
      forall i | 0 <= i < |n.entries| ensures IsZeroValue(n.entries[i].val) <==> AllZero(n.entries[i].val) {
        EncodedZeroIff(n.entries[i].val);
      }
    case _ =>
  }

  // ---------------------------------------------------------------------------
  // Named defaults
  // ---------------------------------------------------------------------------

  predicate TextSetting(n: Node, value: string) { n.kind == Scalar && n.tag == "!!str" && n.value == value }

  /** The settings whose default is not zero, by the dotted path. */
  predicate NamedDefault(path: Path, n: Node) {
    || (JoinDots(path) == "pprof.addr" && TextSetting(n, "127.0.0.1:8316"))
    || (JoinDots(path) == "remote-management.panel-github-repository"
        && TextSetting(n, "https://github.com/kittors/codeProxy"))
    || (JoinDots(path) == "routing.strategy" && TextSetting(n, "round-robin"))
    || (JoinDots(path) == "error-logs-max-files" && n.kind == Scalar && n.tag == "!!int" && n.value == "10")
  }

  lemma KnownDefaultIff(path: Path, n: Node)
    ensures IsKnownDefault(path, n) <==> IsZeroValue(n) || NamedDefault(path, n)
  {
    assert path == [] ==> JoinDots(path) == "";
  }

  predicate DotFree(s: string) { '.' !in s }

  lemma JoinHasDot(path: Path)
    requires |path| >= 2
    ensures '.' in JoinDots(path)
  {
    assert JoinDots(path)[|path[0]|] == '.';
  }

  lemma SameFirstPart(a: string, b: string, s: string, t: string)
    requires DotFree(a) && DotFree(s) && a + "." + b == s + "." + t
    ensures a == s && b == t
  {
    var w := a + "." + b;
    assert w[|a|] == '.' && w[|s|] == '.';
    assert forall i :: 0 <= i < |a| ==> w[i] == a[i];
    assert forall i :: 0 <= i < |s| ==> w[i] == s[i];
    assert |a| == |s|;
    assert w[..|a|] == a && w[..|s|] == s && w[|a| + 1..] == b && w[|s| + 1..] == t;
  }

  /** The dotted path of keys without dots names those keys. */
  lemma JoinDotsNames(path: Path, a: string, b: string)
    requires forall i :: 0 <= i < |path| ==> DotFree(path[i])
    requires DotFree(a) && DotFree(b)
    ensures JoinDots(path) == a + "." + b <==> path == [a, b]
    ensures a != "" ==> (JoinDots(path) == a <==> path == [a])
  {
    if |path| >= 2 {
      JoinHasDot(path);
      if JoinDots(path) == a + "." + b {
        SameFirstPart(path[0], JoinDots(path[1..]), a, b);
        if |path| > 2 {
          JoinHasDot(path[1..]);
        }
      }
    } else if |path| == 1 {
      assert (a + "." + b)[|a|] == '.';
    }
    assert [a, b][1..] == [b];
  }

  // ---------------------------------------------------------------------------
  // What may be missing
  // ---------------------------------------------------------------------------

  /** Everything below says nothing but zero, or is a named setting at its default. */
  ghost predicate MeansDefault(path: Path, n: Node)
    decreases n
  {
    if n.kind == Mapping then
      forall i :: 0 <= i < |n.entries| ==> MeansDefault(path + [n.entries[i].Name()], n.entries[i].val)
    else AllZero(n) || NamedDefault(path, n)
  }

  lemma {:induction false} DefaultOnlyMeansDefault(path: Path, n: Node)
    requires DefaultOnly(path, n)
    ensures MeansDefault(path, n)
    decreases n
  {
    if n.kind == Mapping {
      forall i | 0 <= i < |n.entries| ensures MeansDefault(path + [n.entries[i].Name()], n.entries[i].val) {
        DefaultOnlyMeansDefault(path + [n.entries[i].Name()], n.entries[i].val);
      }
    } else {
      KnownDefaultIff(path, n);
      if IsZeroValue(n) {
        ZeroValueMeansZero(n);
      }
    }
  }

  lemma {:induction false} EncodedDefaultIff(path: Path, n: Node)
    requires Encoded(n)
    ensures DefaultOnly(path, n) <==> MeansDefault(path, n)
    decreases n
  {
    if n.kind == Mapping {
      forall i | 0 <= i < |n.entries|
        ensures DefaultOnly(path + [n.entries[i].Name()], n.entries[i].val) <==>
                MeansDefault(path + [n.entries[i].Name()], n.entries[i].val)
      {
        EncodedDefaultIff(path + [n.entries[i].Name()], n.entries[i].val);
      }
    } else {
      KnownDefaultIff(path, n);
      EncodedZeroIff(n);
    }
  }

  /** Read-back, with what may be missing said by its meaning. */
  ghost predicate ReadsAs(path: Path, src: Node, res: Node, inList: bool)
    decreases src
  {
    match src.kind
    case Mapping =>
      res.kind == Mapping &&
      forall i :: 0 <= i < |src.entries| ==>
        var e := src.entries[i];
        var j := FindKey(res.entries, e.Name());
        if j >= 0 then ReadsAs(path + [e.Name()], e.val, res.entries[j].val, false)
        else MeansDefault(path + [e.Name()], e.val) || (inList && TrimSpace(e.Name()) == "")
    case Sequence =>
      || (src.items == [] && res.kind == Scalar && res.tag == "!!null")
      || (res.kind == Sequence && |res.items| == |src.items| &&
          forall i :: 0 <= i < |src.items| ==> ReadsAs(path, src.items[i], res.items[i], true))
    case Unset => true
    case Document => res.(meta := src.meta) == src
    case _ => res.kind == src.kind && res.tag == src.tag && res.value == src.value
  }

  lemma {:induction false} ReadsBackReadsAs(path: Path, src: Node, res: Node, inList: bool)
    requires ReadsBack(path, src, res, inList)
    ensures ReadsAs(path, src, res, inList)
    decreases src
  {
    match src.kind
    case Mapping =>
      forall i | 0 <= i < |src.entries|
        ensures var e := src.entries[i];
                var j := FindKey(res.entries, e.Name());
                if j >= 0 then ReadsAs(path + [e.Name()], e.val, res.entries[j].val, false)
                else MeansDefault(path + [e.Name()], e.val) || (inList && TrimSpace(e.Name()) == "")
      {
        var e := src.entries[i];
        var j := FindKey(res.entries, e.Name());
        if j >= 0 {
          ReadsBackReadsAs(path + [e.Name()], e.val, res.entries[j].val, false);
        } else if DefaultOnly(path + [e.Name()], e.val) {
          DefaultOnlyMeansDefault(path + [e.Name()], e.val);
        }
      }
    case Sequence =>
      if res.kind == Sequence && |res.items| == |src.items| {
        forall i | 0 <= i < |src.items| ensures ReadsAs(path, src.items[i], res.items[i], true) {
          ReadsBackReadsAs(path, src.items[i], res.items[i], true);
        }
      }
    case _ =>
  }

  /** Whatever the file held, each generated value reads back or means a default. */
  lemma MergeReadsAs(dst: Node, src: Node, path: Path)
    requires UniqueKeys(src)
    ensures ReadsAs(path, src, Merge(dst, src, path), false)
  {
    MergeReadsBack(dst, src, path);
    ReadsBackReadsAs(path, src, Merge(dst, src, path), false);
  }

  /** A setting the file lacks is written exactly when it does not mean its default (or is a list with elements). */
  lemma SettingIsWrittenIff(es: seq<Entry>, e: Entry, child: Path)
    requires UniqueKeys(e.val) && Encoded(e.val)
    ensures AddEntry(es, e, child) != es <==>
            if e.val.kind == Sequence then e.val.items != [] else !MeansDefault(child, e.val)
  {
    NewKeyAddedIff(es, e, child);
    EncodedDefaultIff(child, e.val);
  }

  /** For instance, a flag that is switched on is written, one that is off is not. */
  lemma FlagIsWrittenIff(es: seq<Entry>, key: Node, on: bool, meta: string)
    ensures var e := Entry(key, Node(Scalar, "!!bool", if on then "true" else "false", meta, [], []));
            AddEntry(es, e, [key.value]) != es <==> on
  {
    var e := Entry(key, Node(Scalar, "!!bool", if on then "true" else "false", meta, [], []));
    SettingIsWrittenIff(es, e, [key.value]);
    assert MeaningOf(e.val) == Flag(on);
  }
}
