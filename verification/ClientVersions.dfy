/** Which Codex CLI version a request must present: version order and the cached minima. */
module ClientVersions {
  import opened Text

  const MAX_INT := 0x7FFF_FFFF_FFFF_FFFF
  const EMERGENCY_FLOOR := "0.159.1"

  // ---------------------------------------------------------------------------
  // Parsing
  // ---------------------------------------------------------------------------

  /** What follows the last "v", in either case. */
  function AfterLastV(s: string): string {
    if s == "" then ""
    else if LowerChar(s[|s| - 1]) == 'v' then ""
    else AfterLastV(s[..|s| - 1]) + [s[|s| - 1]]
  }

  predicate DigitsAndDots(s: string) { forall i :: 0 <= i < |s| ==> IsDigit(s[i]) || s[i] == '.' }

  /** `normalizeVersion`: a dotted number, or "" for anything else. */
  function Normalize(raw: string): string {
    var t := TrimSpace(raw);
    var lower := ToLower(t);
    if t == "" || Contains(lower, "alpha") || Contains(lower, "beta") || Contains(lower, "rc") then ""
    else
      var v := TrimSpace(AfterLastV(t));
      if DigitsAndDots(v) then v else ""
  }

  /** `strings.Split(s, ".")`. */
  function Split(s: string): (parts: seq<string>)
    ensures |parts| >= 1
  {
    if s == "" then [""]
    else
      var parts := Split(s[..|s| - 1]);
      var c := s[|s| - 1];
      if c == '.' then parts + [""] else parts[..|parts| - 1] + [parts[|parts| - 1] + [c]]
  }

  /** `versionPart`: 0 beyond the end, for an empty part, and for one that overflows an int. */
  function Part(parts: seq<string>, i: nat): nat {
    if i >= |parts| || parts[i] == "" || !AllDigits(parts[i]) || NatOf(parts[i]) > MAX_INT then 0 else NatOf(parts[i])
  }

  // ---------------------------------------------------------------------------
  // Comparing
  // ---------------------------------------------------------------------------

  /** Order of the parts from `i` up to `n`. */
  function CompareFrom(p: seq<string>, q: seq<string>, i: nat, n: nat): (c: int)
    requires i <= n
    ensures -1 <= c <= 1
    decreases n - i
  {
    if i == n then 0
    else if Part(p, i) < Part(q, i) then -1
    else if Part(p, i) > Part(q, i) then 1
    else CompareFrom(p, q, i + 1, n)
  }

  function Longer(p: seq<string>, q: seq<string>): nat { if |q| > |p| then |q| else |p| }

  /** `Compare`. */
  function Compare(a: string, b: string): int {
    var p, q := Split(Normalize(a)), Split(Normalize(b));
    CompareFrom(p, q, 0, Longer(p, q))
  }

  method CompareVersions(a: string, b: string) returns (c: int)
    ensures c == Compare(a, b)
  {
    c := CompareParts(Split(Normalize(a)), Split(Normalize(b)));
  }

  /** The comparison loop. */
  method CompareParts(p: seq<string>, q: seq<string>) returns (c: int)
    ensures c == CompareFrom(p, q, 0, Longer(p, q))
  {
    var n := |p|;
    if |q| > n {
      n := |q|;
    }
    for i := 0 to n
      invariant CompareFrom(p, q, 0, n) == CompareFrom(p, q, i, n)
    {
      if Part(p, i) < Part(q, i) { return -1; }
      if Part(p, i) > Part(q, i) { return 1; }
    }
    return 0;
  }

  /** Parts beyond both ends are zero and decide nothing. */
  lemma {:induction false} LongerComparison(p: seq<string>, q: seq<string>, i: nat, n: nat, m: nat)
    requires i <= n <= m && Longer(p, q) <= n
    ensures CompareFrom(p, q, i, n) == CompareFrom(p, q, i, m)
    decreases m - i
  {
    if i < m {
      if i < n {
        LongerComparison(p, q, i + 1, n, m);
      } else {
        LongerComparison(p, q, i + 1, i + 1, m);
      }
    }
  }

  lemma {:induction false} PartsAntisymmetric(p: seq<string>, q: seq<string>, i: nat, n: nat)
    requires i <= n
    ensures CompareFrom(p, q, i, n) == -CompareFrom(q, p, i, n)
    decreases n - i
  {
    if i < n {
      PartsAntisymmetric(p, q, i + 1, n);
    }
  }

  lemma {:induction false} PartsTransitive(p: seq<string>, q: seq<string>, r: seq<string>, i: nat, n: nat)
    requires i <= n && CompareFrom(p, q, i, n) <= 0 && CompareFrom(q, r, i, n) <= 0
    ensures CompareFrom(p, r, i, n) <= 0
    ensures CompareFrom(p, r, i, n) == 0 ==> CompareFrom(p, q, i, n) == 0 && CompareFrom(q, r, i, n) == 0
    decreases n - i
  {
    if i < n && Part(p, i) == Part(q, i) == Part(r, i) {
      PartsTransitive(p, q, r, i + 1, n);
    }
  }

  /** Swapping the arguments flips the sign. */
  lemma CompareFlips(a: string, b: string)
    ensures Compare(a, b) == -Compare(b, a)
  {
    var p, q := Split(Normalize(a)), Split(Normalize(b));
    PartsAntisymmetric(p, q, 0, Longer(p, q));
  }

  /** `Compare` is a total preorder on all strings. */
  lemma CompareIsTransitive(a: string, b: string, c: string)
    requires Compare(a, b) <= 0 && Compare(b, c) <= 0
    ensures Compare(a, c) <= 0
    ensures Compare(a, c) == 0 ==> Compare(a, b) == 0 && Compare(b, c) == 0
  {
    var p, q, r := Split(Normalize(a)), Split(Normalize(b)), Split(Normalize(c));
    var n := |p| + |q| + |r|;
    LongerComparison(p, q, 0, Longer(p, q), n);
    LongerComparison(q, r, 0, Longer(q, r), n);
    LongerComparison(p, r, 0, Longer(p, r), n);
    PartsTransitive(p, q, r, 0, n);
  }

  /** Nothing is older than the empty version. */
  lemma {:induction false} EmptyPartsAreLeast(p: seq<string>, q: seq<string>, i: nat, n: nat)
    requires i <= n && forall k: nat :: Part(p, k) == 0
    ensures CompareFrom(p, q, i, n) <= 0
    decreases n - i
  {
    if i < n {
      EmptyPartsAreLeast(p, q, i + 1, n);
    }
  }

  lemma EmptyIsLeast(a: string)
    ensures Compare("", a) <= 0
  {
    var p, q := Split(Normalize("")), Split(Normalize(a));
    assert Normalize("") == "" && p == [""];
    EmptyPartsAreLeast(p, q, 0, Longer(p, q));
  }

  predicate AtLeast(a: string, b: string) { Compare(a, b) >= 0 }

  function Newer(a: string, b: string): string {
    if a == "" then b else if b == "" || Compare(a, b) >= 0 then a else b
  }

  /** `newer` picks a maximum of its arguments. */
  lemma NewerIsMaximum(a: string, b: string)
    ensures Newer(a, b) == a || Newer(a, b) == b
    ensures AtLeast(Newer(a, b), a) && AtLeast(Newer(a, b), b)
  {
    CompareFlips(a, b);
    CompareFlips(a, a);
    CompareFlips(b, b);
    EmptyIsLeast(a);
    EmptyIsLeast(b);
    CompareFlips("", a);
    CompareFlips("", b);
  }

  lemma AtLeastTransitive(a: string, b: string, c: string)
    requires AtLeast(a, b) && AtLeast(b, c)
    ensures AtLeast(a, c)
  {
    CompareFlips(a, b);
    CompareFlips(b, c);
    CompareFlips(a, c);
    CompareIsTransitive(c, b, a);
  }

  /** A maximum is monotone in both arguments. */
  lemma NewerIsMonotone(a: string, b: string, a': string, b': string)
    requires AtLeast(a', a) && AtLeast(b', b)
    ensures AtLeast(Newer(a', b'), Newer(a, b))
  {
    NewerIsMaximum(a, b);
    NewerIsMaximum(a', b');
    if Newer(a, b) == a {
      AtLeastTransitive(Newer(a', b'), a', a);
    } else {
      AtLeastTransitive(Newer(a', b'), b', b);
    }
  }

  // ---------------------------------------------------------------------------
  // The cache
  // ---------------------------------------------------------------------------

  function ModelKey(model: string): string { ToLower(TrimSpace(model)) }

  /** A model is known by its name without case and outer blanks. */
  lemma ModelKeyIgnoresCase(a: string, b: string)
    requires SameButCase(a, b)
    ensures ModelKey(a) == ModelKey(b)
    ensures ModelKey(" " + a) == ModelKey(a) && ModelKey(ModelKey(a)) == ModelKey(a)
  {
    TrimSpaceIgnoresCase(a, b);
    assert (" " + a)[1..] == a;
    TrimSpaceTrims(a);
    var t := TrimSpace(a);
    TrimSpaceIgnoresCase(ToLower(t), t);
    assert t != "" ==> !IsSpace(ToLower(t)[0]) && !IsSpace(ToLower(t)[|t| - 1]);
  }

  /** `official` is "" until the release feed has answered. */
  datatype Cache = Cache(official: string, mins: map<string, string>)

  function MinimumOf(c: Cache, key: string): string { if key in c.mins then c.mins[key] else "" }

  function Noted(c: Cache, model: string, raw: string): Cache {
    var key, v := ModelKey(model), Normalize(raw);
    if key == "" || v == "" then c
    else if MinimumOf(c, key) != "" && Compare(v, MinimumOf(c, key)) < 0 then c
    else c.(mins := c.mins[key := v])
  }

  /** The release feed answers; a failed fetch answers "". */
  function Answered(c: Cache, tag: string): Cache {
    var v := Normalize(tag);
    if v == "" || (c.official != "" && Compare(v, c.official) < 0) then c else c.(official := v)
  }

  function Base(c: Cache): string { if c.official == "" then EMERGENCY_FLOOR else c.official }

  function RequiredVersion(c: Cache, model: string): string { Newer(Base(c), MinimumOf(c, ModelKey(model))) }

  /** A note raises its model's minimum to at least what it says and leaves every other model alone. */
  lemma NoteRaises(c: Cache, model: string, raw: string)
    ensures forall k :: AtLeast(MinimumOf(Noted(c, model, raw), k), MinimumOf(c, k))
    ensures forall k :: k != ModelKey(model) ==> MinimumOf(Noted(c, model, raw), k) == MinimumOf(c, k)
    ensures ModelKey(model) != "" ==> AtLeast(MinimumOf(Noted(c, model, raw), ModelKey(model)), Normalize(raw))
  {
    var n := Noted(c, model, raw);
    forall k ensures AtLeast(MinimumOf(n, k), MinimumOf(c, k)) {
      StepRaises(c, Note(model, raw), k);
    }
    if ModelKey(model) != "" {
      StepMinimum(c, Note(model, raw), ModelKey(model));
    }
  }

  /** The official version never falls, and is at least what the feed last answered. */
  lemma AnswerRaises(c: Cache, tag: string)
    ensures AtLeast(Answered(c, tag).official, c.official) && AtLeast(Answered(c, tag).official, Normalize(tag))
  {
    var v := Normalize(tag);
    CompareFlips(v, v);
    CompareFlips(c.official, v);
    CompareFlips(c.official, c.official);
    EmptyIsLeast(v);
    CompareFlips("", v);
    EmptyIsLeast(c.official);
    CompareFlips("", c.official);
  }

  class Memory {
    var official: string
    var mins: map<string, string>

    constructor ()
      ensures Contents() == Cache("", map[])
    {
      official, mins := "", map[];
    }

    function Contents(): Cache
      reads this
    {
      Cache(official, mins)
    }

    method NoteMinimum(model: string, version: string)
      modifies this`mins
      ensures Contents() == Noted(old(Contents()), model, version)
      ensures forall k :: AtLeast(MinimumOf(Contents(), k), MinimumOf(old(Contents()), k))
      ensures forall k :: k != ModelKey(model) ==> MinimumOf(Contents(), k) == MinimumOf(old(Contents()), k)
      ensures ModelKey(model) != "" ==> AtLeast(MinimumOf(Contents(), ModelKey(model)), Normalize(version))
    {
      NoteRaises(Contents(), model, version);
      var key, v := ModelKey(model), Normalize(version);
      if key == "" || v == "" { return; }
      if key in mins && mins[key] != "" {
        var c := CompareVersions(v, mins[key]);
        if c < 0 { return; }
      }
      mins := mins[key := v];
    }

    /** The second critical section of `Refresh`. */
    method AcceptAnswer(tag: string)
      modifies this`official
      ensures Contents() == Answered(old(Contents()), tag)
      ensures AtLeast(official, old(official)) && AtLeast(official, Normalize(tag))
      ensures official == old(official) || official == Normalize(tag)
    {
      AnswerRaises(Contents(), tag);
      var v := Normalize(tag);
      if v == "" { return; }
      if official != "" {
        var c := CompareVersions(v, official);
        if c < 0 { return; }
      }
      official := v;
    }

    method Required(model: string) returns (version: string)
      ensures version == RequiredVersion(Contents(), model)
      ensures AtLeast(version, Base(Contents())) && AtLeast(version, MinimumOf(Contents(), ModelKey(model)))
      ensures version == Base(Contents()) || version == MinimumOf(Contents(), ModelKey(model))
    {
      NewerIsMaximum(Base(Contents()), MinimumOf(Contents(), ModelKey(model)));
      var base := official;
      var minimum := if ModelKey(model) in mins then mins[ModelKey(model)] else "";
      if base == "" {
        base := EMERGENCY_FLOOR;
      }
      version := Newer(base, minimum);
    }
  }

  /** What concurrent callers do, one critical section at a time. */
  datatype Event = Note(model: string, version: string) | Answer(tag: string)

  function Step(c: Cache, ev: Event): Cache {
    match ev
    case Note(m, v) => Noted(c, m, v)
    case Answer(tag) => Answered(c, tag)
  }

  function StepAll(c: Cache, evs: seq<Event>): Cache
    decreases |evs|
  {
    if evs == [] then c else StepAll(Step(c, evs[0]), evs[1..])
  }

  lemma StepRaises(c: Cache, ev: Event, key: string)
    ensures AtLeast(MinimumOf(Step(c, ev), key), MinimumOf(c, key))
    ensures c.official != "" ==> Step(c, ev).official != "" && AtLeast(Step(c, ev).official, c.official)
  {
    CompareFlips(MinimumOf(c, key), MinimumOf(c, key));
    CompareFlips(c.official, c.official);
    if ev.Note? {
      EmptyIsLeast(Normalize(ev.version));
      CompareFlips("", Normalize(ev.version));
    }
  }

  /** Once the feed has answered, no interleaving of notes and answers lowers a required version. */
  lemma {:induction false} RequiredNeverFalls(c: Cache, evs: seq<Event>, model: string)
    requires c.official != ""
    ensures StepAll(c, evs).official != ""
    ensures AtLeast(RequiredVersion(StepAll(c, evs), model), RequiredVersion(c, model))
    decreases |evs|
  {
    if evs == [] {
      CompareFlips(RequiredVersion(c, model), RequiredVersion(c, model));
    } else {
      var n := Step(c, evs[0]);
      StepRaises(c, evs[0], ModelKey(model));
      NewerIsMonotone(Base(c), MinimumOf(c, ModelKey(model)), Base(n), MinimumOf(n, ModelKey(model)));
      RequiredNeverFalls(n, evs[1..], model);
      AtLeastTransitive(RequiredVersion(StepAll(c, evs), model), RequiredVersion(n, model), RequiredVersion(c, model));
    }
  }

  /** The first answer lowers the required version exactly when both it and the model's minimum are below the floor. */
  lemma FirstAnswerFallsIff(c: Cache, tag: string, model: string)
    requires c.official == "" && Normalize(tag) != ""
    ensures !AtLeast(RequiredVersion(Answered(c, tag), model), RequiredVersion(c, model)) <==>
            !AtLeast(Normalize(tag), EMERGENCY_FLOOR) && !AtLeast(MinimumOf(c, ModelKey(model)), EMERGENCY_FLOOR)
  {
    var v, m := Normalize(tag), MinimumOf(c, ModelKey(model));
    NewerIsMaximum(v, m);
    NewerIsMaximum(EMERGENCY_FLOOR, m);
    CompareFlips(m, m);
    if AtLeast(v, EMERGENCY_FLOOR) {
      NewerIsMonotone(EMERGENCY_FLOOR, m, v, m);
    } else if AtLeast(m, EMERGENCY_FLOOR) {
      MaximumIsOther(EMERGENCY_FLOOR, m);
      AtLeastTransitive(Newer(v, m), m, Newer(EMERGENCY_FLOOR, m));
    } else {
      if AtLeast(Newer(v, m), Newer(EMERGENCY_FLOOR, m)) {
        AtLeastTransitive(Newer(v, m), Newer(EMERGENCY_FLOOR, m), EMERGENCY_FLOOR);
      }
    }
  }

  /** A dotted number is what follows its last "v". */
  lemma {:induction false} NoLetterV(s: string)
    requires DigitsAndDots(s)
    ensures AfterLastV(s) == s
    decreases |s|
  {
    if s != "" {
      NoLetterV(s[..|s| - 1]);
      assert s[..|s| - 1] + [s[|s| - 1]] == s;
    }
  }

  lemma {:induction false} NoWord(s: string, word: string)
    requires DigitsAndDots(s) && word != "" && 'a' <= word[0] <= 'z'
    ensures !Contains(s, word)
    decreases |s|
  {
    if s != "" {
      NoWord(s[1..], word);
    }
  }

  lemma PlainVersion(s: string)
    requires s != "" && DigitsAndDots(s)
    ensures Normalize(s) == s
  {
    assert !IsSpace(s[0]) && !IsSpace(s[|s| - 1]);
    assert ToLower(s) == s;
    NoLetterV(s);
    NoWord(s, "alpha");
    NoWord(s, "beta");
    NoWord(s, "rc");
  }

  /** The parts with more text at the end of the last one. */
  function WithTail(parts: seq<string>, t: string): seq<string>
    requires parts != []
  {
    parts[..|parts| - 1] + [parts[|parts| - 1] + t]
  }

  lemma SplitSnoc(s: string, c: char)
    ensures Split(s + [c]) == if c == '.' then Split(s) + [""] else WithTail(Split(s), [c])
  {
    var all := s + [c];
    assert all[..|all| - 1] == s && all[|all| - 1] == c;
  }

  lemma TailGrows(parts: seq<string>, front: string, c: char)
    requires parts != []
    ensures WithTail(WithTail(parts, front), [c]) == WithTail(parts, front + [c])
  {
    var w, last := WithTail(parts, front), parts[|parts| - 1];
    assert w[..|w| - 1] == parts[..|parts| - 1] && w[|w| - 1] == last + front;
    assert (last + front) + [c] == last + (front + [c]);
  }

  lemma NoTail(parts: seq<string>)
    requires parts != []
    ensures WithTail(parts, "") == parts
  {
    var last := parts[|parts| - 1];
    assert last + "" == last;
  }

  /** Characters other than dots lengthen the last part. */
  lemma {:induction false} SplitExtends(s: string, t: string)
    requires '.' !in t
    ensures Split(s + t) == WithTail(Split(s), t)
    decreases |t|
  {
    if t == "" {
      NoTail(Split(s));
      assert s + t == s;
    } else {
      var front, c := t[..|t| - 1], t[|t| - 1];
      SplitExtends(s, front);
      SplitSnoc(s + front, c);
      TailGrows(Split(s), front, c);
      OneMore(s, front, c, t);
    }
  }

  lemma OneMore(s: string, front: string, c: char, t: string)
    requires t != "" && front == t[..|t| - 1] && c == t[|t| - 1]
    ensures front + [c] == t && (s + front) + [c] == s + t
  {
  }

  lemma SplitAtDot(s: string, t: string)
    requires '.' !in t
    ensures Split(s + "." + t) == Split(s) + [t]
  {
    SplitSnoc(s, '.');
    SplitExtends(s + ".", t);
    LastIsTail(Split(s), t);
  }

  lemma LastIsTail(parts: seq<string>, t: string)
    ensures WithTail(parts + [""], t) == parts + [t]
  {
    assert "" + t == t;
  }

  lemma SplitWithoutDot(t: string)
    requires '.' !in t
    ensures Split(t) == [t]
  {
    SplitExtends("", t);
    assert "" + t == t;
    LastIsTail([], t);
  }

  predicate IsPart(s: string) { s != "" && AllDigits(s) && NatOf(s) <= MAX_INT }

  lemma DottedDigits(s: string, t: string)
    requires DigitsAndDots(s) && DigitsAndDots(t)
    ensures DigitsAndDots(s + "." + t)
  {
  }

  lemma SplitParts(a: string, b: string, c: string)
    requires AllDigits(a) && AllDigits(b) && AllDigits(c)
    ensures Split(a + "." + b) == [a, b]
    ensures Split(a + "." + b + "." + c) == [a, b, c]
    ensures DigitsAndDots(a + "." + b) && DigitsAndDots(a + "." + b + "." + c)
  {
    DottedDigits(a, b);
    DottedDigits(a + "." + b, c);
    SplitWithoutDot(a);
    SplitAtDot(a, b);
    SplitAtDot(a + "." + b, c);
  }

  /** On lists of parts, the second decides when the first ones agree. */
  lemma SecondPartDecides(p: seq<string>, q: seq<string>, n: nat)
    requires Part(p, 0) == Part(q, 0) && Part(p, 1) < Part(q, 1) && n >= 2
    ensures CompareFrom(p, q, 0, n) == -1
  {
    assert CompareFrom(p, q, 0, n) == CompareFrom(p, q, 1, n);
  }

  /** Dotted numbers compare by their parts. */
  lemma CompareDotted(v: string, w: string, p: seq<string>, q: seq<string>)
    requires DigitsAndDots(v) && DigitsAndDots(w) && Split(v) == p && Split(w) == q
    requires Part(p, 0) == Part(q, 0) && Part(p, 1) < Part(q, 1) && Longer(p, q) >= 2
    ensures Compare(v, w) == -1
  {
    SecondPartDecides(p, q, Longer(p, q));
    if v != "" { PlainVersion(v); }
    if w != "" { PlainVersion(w); }
  }

  /** A smaller second number decides, whatever follows. */
  lemma SecondNumberDecides(a: string, b: string, d: string, c: string)
    requires IsPart(a) && IsPart(b) && IsPart(c) && IsPart(d) && NatOf(b) < NatOf(d)
    ensures Compare(a + "." + b, a + "." + d + "." + c) == -1
  {
    SplitParts(a, b, c);
    SplitParts(a, d, c);
    CompareDotted(a + "." + b, a + "." + d + "." + c, [a, b], [a, d, c]);
  }

  /** The empty version is below every version with a positive second number. */
  lemma EmptyIsBelow(a: string, d: string, c: string)
    requires IsPart(a) && IsPart(c) && IsPart(d) && NatOf(a) == 0 < NatOf(d)
    ensures Compare("", a + "." + d + "." + c) == -1
  {
    SplitParts(a, d, c);
    CompareDotted("", a + "." + d + "." + c, [""], [a, d, c]);
  }

  lemma BelowTheFloor(low: string, floor: string)
    requires low == "0.1" && floor == EMERGENCY_FLOOR
    ensures Compare(low, floor) == -1 && Compare("", floor) == -1
  {
    var a, b, d := Numeral(0), Numeral(1), Numeral(159);
    NumeralDenotes(0);
    NumeralDenotes(1);
    NumeralDenotes(159);
    FloorParts(a, b, d, low, floor);
    SecondNumberDecides(a, b, d, b);
    EmptyIsBelow(a, d, b);
  }

  lemma FloorParts(a: string, b: string, d: string, low: string, floor: string)
    requires low == "0.1" && floor == EMERGENCY_FLOOR
    requires a == Numeral(0) && b == Numeral(1) && d == Numeral(159)
    ensures a + "." + b == low && a + "." + d + "." + b == floor
  {
    assert a == "0" && b == "1" && d == "159";
  }

  /** The one fall occurs: before any answer the floor is required, after the answer "0.1" less is. */
  lemma FirstAnswerCanFall(model: string)
    ensures var c := Cache("", map[]);
            !AtLeast(RequiredVersion(Answered(c, "0.1"), model), RequiredVersion(c, model))
  {
    BelowTheFloor("0.1", EMERGENCY_FLOOR);
    PlainVersion("0.1");
    FirstAnswerFallsIff(Cache("", map[]), "0.1", model);
  }

  /** When the second argument is at least the first, it is at least their maximum. */
  lemma MaximumIsOther(a: string, b: string)
    requires AtLeast(b, a)
    ensures AtLeast(b, Newer(a, b))
  {
    NewerIsMaximum(a, b);
    CompareFlips(b, b);
  }

  /** The version a note asserts about the model `key`; "" for every other event. */
  function Asserts(ev: Event, key: string): string {
    if ev.Note? && key != "" && ModelKey(ev.model) == key then Normalize(ev.version) else ""
  }

  /** One event changes the minimum of `key` only when it asserts something newer or equal. */
  lemma StepMinimum(c: Cache, ev: Event, key: string)
    ensures var v, before, m := Asserts(ev, key), MinimumOf(c, key), MinimumOf(Step(c, ev), key);
            && (v == "" ==> m == before)
            && (v != "" ==> m != "" && (m == before || m == v))
            && AtLeast(m, before) && AtLeast(m, v)
  {
    StepRaises(c, ev, key);
    var v, before := Asserts(ev, key), MinimumOf(c, key);
    CompareFlips(v, v);
    CompareFlips(before, v);
    EmptyIsLeast(before);
    CompareFlips("", before);
  }

  function CacheAfter(evs: seq<Event>): Cache {
    if evs == [] then Cache("", map[]) else Step(CacheAfter(evs[..|evs| - 1]), evs[|evs| - 1])
  }

  /** `m` is a maximum of the versions asserted about `key`, "" when there are none. */
  ghost predicate IsMaximum(evs: seq<Event>, key: string, m: string) {
    && (m != "" ==> exists i :: 0 <= i < |evs| && Asserts(evs[i], key) == m)
    && (forall i :: 0 <= i < |evs| && Asserts(evs[i], key) != "" ==> m != "" && AtLeast(m, Asserts(evs[i], key)))
  }

  lemma MaximumGrows(evs: seq<Event>, ev: Event, key: string, before: string, m: string)
    requires IsMaximum(evs, key, before)
    requires Asserts(ev, key) == "" ==> m == before
    requires Asserts(ev, key) != "" ==> m != "" && (m == before || m == Asserts(ev, key))
    requires AtLeast(m, before) && AtLeast(m, Asserts(ev, key))
    ensures IsMaximum(evs + [ev], key, m)
  {
    var all := evs + [ev];
    forall i | 0 <= i < |all| && Asserts(all[i], key) != ""
      ensures m != "" && AtLeast(m, Asserts(all[i], key))
    {
      if i < |evs| {
        assert all[i] == evs[i];
        AtLeastTransitive(m, before, Asserts(evs[i], key));
      }
    }
    if m != "" && m == before {
      var i :| 0 <= i < |evs| && Asserts(evs[i], key) == m;
      assert all[i] == evs[i];
    } else if m != "" {
      assert all[|evs|] == ev;
    }
  }

  /** Each noted minimum is one of the notes for its model, and at least all of them. */
  lemma {:induction false} MinimumIsMaximumOfNotes(evs: seq<Event>, key: string)
    ensures IsMaximum(evs, key, MinimumOf(CacheAfter(evs), key))
    decreases |evs|
  {
    if evs != [] {
      var front, ev := evs[..|evs| - 1], evs[|evs| - 1];
      MinimumIsMaximumOfNotes(front, key);
      StepMinimum(CacheAfter(front), ev, key);
      MaximumGrows(front, ev, key, MinimumOf(CacheAfter(front), key), MinimumOf(CacheAfter(evs), key));
      assert evs == front + [ev];
    }
  }

  // ---------------------------------------------------------------------------
  // What the order means
  // ---------------------------------------------------------------------------

  /** The numbers written with dots between them. */
  function Dotted(xs: seq<nat>): (s: string)
    requires xs != []
    ensures s != ""
  {
    if |xs| == 1 then Numeral(xs[0]) else Dotted(xs[..|xs| - 1]) + "." + Numeral(xs[|xs| - 1])
  }

  function Numerals(xs: seq<nat>): (ps: seq<string>)
    ensures |ps| == |xs|
  {
    seq(|xs|, i requires 0 <= i < |xs| => Numeral(xs[i]))
  }

  /** The i-th number; what is not written, or too large for an int, counts as zero. */
  function NumberAt(xs: seq<nat>, i: nat): nat {
    if i < |xs| && xs[i] <= 0x7FFF_FFFF_FFFF_FFFF then xs[i] else 0
  }

  lemma SplitOne(t: string)
    requires AllDigits(t)
    ensures Split(t) == [t] && DigitsAndDots(t)
  {
    SplitWithoutDot(t);
  }

  lemma SplitOneMore(s: string, t: string)
    requires DigitsAndDots(s) && AllDigits(t)
    ensures Split(s + "." + t) == Split(s) + [t] && DigitsAndDots(s + "." + t)
  {
    SplitAtDot(s, t);
    DottedDigits(s, t);
  }

  lemma NumeralsOfAppend(front: seq<nat>, x: nat)
    ensures Numerals(front + [x]) == Numerals(front) + [Numeral(x)]
  {
  }

  lemma {:induction false} SplitDotted(xs: seq<nat>)
    requires xs != []
    ensures Split(Dotted(xs)) == Numerals(xs) && DigitsAndDots(Dotted(xs))
    decreases |xs|
  {
    var front, last := xs[..|xs| - 1], xs[|xs| - 1];
    NumeralDenotes(last);
    NumeralsOfAppend(front, last);
    assert front + [last] == xs;
    if |xs| == 1 {
      SplitOne(Numeral(last));
      assert Numerals(front) == [];
    } else {
      SplitDotted(front);
      SplitOneMore(Dotted(front), Numeral(last));
    }
  }

  lemma PartMeans(xs: seq<nat>, i: nat)
    ensures Part(Numerals(xs), i) == NumberAt(xs, i)
  {
    if i < |xs| {
      NumeralDenotes(xs[i]);
    }
  }

  /** The first difference decides. */
  ghost predicate SmallerAt(xs: seq<nat>, ys: seq<nat>, i: nat) {
    NumberAt(xs, i) < NumberAt(ys, i) && forall j: nat :: j < i ==> NumberAt(xs, j) == NumberAt(ys, j)
  }

  lemma {:induction false} CompareNumbers(xs: seq<nat>, ys: seq<nat>, i: nat, n: nat) returns (k: nat)
    requires i <= n && forall j: nat :: j < i ==> NumberAt(xs, j) == NumberAt(ys, j)
    ensures var c := CompareFrom(Numerals(xs), Numerals(ys), i, n);
            && (c == -1 ==> SmallerAt(xs, ys, k)) && (c == 1 ==> SmallerAt(ys, xs, k))
            && (c == 0 ==> forall j: nat :: j < n ==> NumberAt(xs, j) == NumberAt(ys, j))
    decreases n - i
  {
    k := i;
    PartMeans(xs, i);
    PartMeans(ys, i);
    if i < n && NumberAt(xs, i) == NumberAt(ys, i) {
      k := CompareNumbers(xs, ys, i + 1, n);
    }
  }

  /**
   Dotted numbers compare as numbers, part by part from the left, missing parts
   counting as zero.
   */
  lemma CompareIsNumeric(xs: seq<nat>, ys: seq<nat>)
    requires xs != [] && ys != []
    ensures Compare(Dotted(xs), Dotted(ys)) == -1 <==> exists i: nat :: SmallerAt(xs, ys, i)
    ensures Compare(Dotted(xs), Dotted(ys)) == 1 <==> exists i: nat :: SmallerAt(ys, xs, i)
    ensures Compare(Dotted(xs), Dotted(ys)) == 0 <==> forall i: nat :: NumberAt(xs, i) == NumberAt(ys, i)
  {
    SplitDotted(xs);
    SplitDotted(ys);
    PlainVersion(Dotted(xs));
    PlainVersion(Dotted(ys));
    var n := Longer(Numerals(xs), Numerals(ys));
    var k := CompareNumbers(xs, ys, 0, n);
    assert forall i: nat :: i >= n ==> NumberAt(xs, i) == NumberAt(ys, i);
    OneOrder(xs, ys);
  }

  /** At most one of smaller, equal and larger holds. */
  lemma OneOrder(xs: seq<nat>, ys: seq<nat>)
    ensures !((exists i: nat :: SmallerAt(xs, ys, i)) && (exists i: nat :: SmallerAt(ys, xs, i)))
    ensures (forall i: nat :: NumberAt(xs, i) == NumberAt(ys, i)) ==>
              !(exists i: nat :: SmallerAt(xs, ys, i)) && !(exists i: nat :: SmallerAt(ys, xs, i))
  {
    if i: nat :| SmallerAt(xs, ys, i) {
      forall j: nat ensures !SmallerAt(ys, xs, j) {
        assert j < i ==> NumberAt(xs, j) == NumberAt(ys, j);
      }
    }
  }

  // ---------------------------------------------------------------------------
  // What counts as a version
  // ---------------------------------------------------------------------------

  predicate NoV(s: string) { forall i :: 0 <= i < |s| ==> s[i] != 'v' && s[i] != 'V' }

  /** What is left is the end of the text, has no "v", and follows one unless it is the whole text. */
  lemma {:induction false} AfterLastVIs(s: string) returns (k: nat)
    ensures k <= |s| && s[k..] == AfterLastV(s) && NoV(AfterLastV(s))
    ensures k == 0 || s[k - 1] == 'v' || s[k - 1] == 'V'
    decreases |s|
  {
    k := |s|;
    if s != "" && LowerChar(s[|s| - 1]) != 'v' {
      var front, c := s[..|s| - 1], s[|s| - 1];
      k := AfterLastVIs(front);
      SuffixGrows(s, k);
      NoVGrows(AfterLastV(front), c);
    }
  }

  lemma NoVGrows(s: string, c: char)
    requires NoV(s) && LowerChar(c) != 'v'
    ensures NoV(s + [c])
  {
  }

  lemma SuffixGrows(s: string, k: nat)
    requires k < |s|
    ensures s[..|s| - 1][k..] + [s[|s| - 1]] == s[k..]
  {
  }

  /** A pre-release tag of any kind is no version. */
  lemma PreReleaseIsNone(raw: string)
    requires Contains(ToLower(TrimSpace(raw)), "alpha") || Contains(ToLower(TrimSpace(raw)), "beta")
             || Contains(ToLower(TrimSpace(raw)), "rc")
    ensures Normalize(raw) == ""
  {
  }

  /** Every other tag stands for the numbers after its last "v", and is none when something else is there. */
  lemma TagMeans(raw: string, tail: string)
    requires !Contains(ToLower(TrimSpace(raw)), "alpha") && !Contains(ToLower(TrimSpace(raw)), "beta")
    requires !Contains(ToLower(TrimSpace(raw)), "rc") && tail == TrimSpace(AfterLastV(TrimSpace(raw)))
    ensures Normalize(raw) == if DigitsAndDots(tail) then tail else ""
  {
  }

  lemma {:induction false} AfterVIs(prefix: string, s: string)
    requires NoV(s)
    ensures AfterLastV(prefix + "v" + s) == s
    decreases |s|
  {
    if s != "" {
      var front, c := s[..|s| - 1], s[|s| - 1];
      AfterVIs(prefix, front);
      AfterSnoc(prefix + "v" + front, c);
      assert front + [c] == s;
      assert prefix + "v" + front + [c] == prefix + "v" + s;
    } else {
      AfterSnoc(prefix, 'v');
      assert prefix + "v" + s == prefix + ['v'];
    }
  }

  lemma AfterSnoc(s: string, c: char)
    ensures AfterLastV(s + [c]) == if LowerChar(c) == 'v' then "" else AfterLastV(s) + [c]
  {
    var all := s + [c];
    assert all[..|all| - 1] == s && all[|all| - 1] == c;
  }

  /** A release tag such as "rust-v0.20.1" stands for its numbers. */
  lemma ReleaseTagMeansItsNumbers(prefix: string, xs: seq<nat>)
    requires xs != [] && var t := prefix + "v" + Dotted(xs);
             TrimSpace(t) == t && !Contains(ToLower(t), "alpha") && !Contains(ToLower(t), "beta")
             && !Contains(ToLower(t), "rc")
    ensures Normalize(prefix + "v" + Dotted(xs)) == Dotted(xs)
  {
    SplitDotted(xs);
    var d := Dotted(xs);
    assert NoV(d);
    AfterVIs(prefix, d);
    assert !IsSpace(d[0]) && !IsSpace(d[|d| - 1]);
  }
}
