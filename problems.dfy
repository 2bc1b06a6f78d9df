/** The status string of BodyScaleMetricsHandler (metrics/__init__.py:350-418): a
    list of problem tokens such as "weight_low", joined by "_and_", with "none" for
    no problem. Adding a token splits the status, drops duplicates and "none",
    sorts, and groups the tokens by sensor; removing drops one sensor's tokens. */
module Problems {
  import opened Util

  const Separator: string := "_and_"
  const NoProblem: string := "none"

  /** The sensor keys and the problem kinds the handler ever writes. */
  const SensorKeys: seq<string> := ["weight", "impedance", "last_time"]
  const Kinds: seq<string> := ["unavailable", "invalid_format", "low", "high", "invalid"]

  // ---------------------------------------------------------------- split and join

  predicate SeparatorAt(s: string, j: nat)
  {
    j + |Separator| <= |s| && s[j..j + |Separator|] == Separator
  }

  /** The first occurrence of the separator at or after position i. */
  function FindSeparator(s: string, i: nat): (r: Option<nat>)
    requires i <= |s|
    ensures r.Some? ==> i <= r.value && SeparatorAt(s, r.value)
    ensures r.Some? ==> forall j :: i <= j < r.value ==> !SeparatorAt(s, j)
    ensures r.None? ==> forall j :: i <= j ==> !SeparatorAt(s, j)
    decreases |s| - i
  {
    if i + |Separator| > |s| then None
    else if SeparatorAt(s, i) then Some(i)
    else FindSeparator(s, i + 1)
  }

  /** str.split("_and_"): the pieces between non-overlapping occurrences, leftmost first. */
  function Split(s: string): (r: seq<string>)
    ensures |r| >= 1
    decreases |s|
  {
    match FindSeparator(s, 0)
    case None => [s]
    case Some(j) => [s[..j]] + Split(s[j + |Separator|..])
  }

  /** "_and_".join(parts). */
  function Join(parts: seq<string>): string
  {
    if |parts| == 0 then ""
    else if |parts| == 1 then parts[0]
    else parts[0] + Separator + Join(parts[1..])
  }

  /** A token in which no underscore is followed by an 'a': in particular it neither
      contains "_and_" nor ends with "_and", so joining such tokens cannot create a
      separator that was not put there. */
  predicate SafeToken(t: string)
  {
    forall i :: 0 <= i < |t| - 1 ==> !(t[i] == '_' && t[i + 1] == 'a')
  }

  lemma SafeHasNoSeparator(t: string)
    requires SafeToken(t)
    ensures forall j :: !SeparatorAt(t, j)
  {
    forall j: nat
      ensures !SeparatorAt(t, j)
    {
      if j + 5 <= |t| {
        assert t[j..j + 5][0] == t[j] && t[j..j + 5][1] == t[j + 1];
        assert !(t[j] == '_' && t[j + 1] == 'a');
      }
    }
  }

  /** In t + "_and_" + rest, the first separator is the one after t. */
  lemma FirstSeparatorAfter(t: string, rest: string)
    requires SafeToken(t)
    ensures FindSeparator(t + Separator + rest, 0) == Some(|t|)
  {
    var s := t + Separator + rest;
    assert s[|t|..|t| + 5] == Separator;
    forall j: nat | j < |t|
      ensures !SeparatorAt(s, j)
    {
      if j + 5 <= |s| {
        assert s[j..j + 5][0] == s[j] && s[j..j + 5][1] == s[j + 1];
        if j + 1 < |t| {
          assert s[j] == t[j] && s[j + 1] == t[j + 1];
          assert !(t[j] == '_' && t[j + 1] == 'a');
        } else {
          assert s[j + 1] == '_';
        }
      }
    }
    assert SeparatorAt(s, |t|);
    var r := FindSeparator(s, 0);
    assert r.Some?;
    assert !(r.value < |t|);
    assert !(r.value > |t|);
  }

  /** Splitting undoes joining, for a non-empty list of safe tokens. */
  lemma {:induction false} SplitJoin(parts: seq<string>)
    requires |parts| >= 1
    requires forall t :: t in parts ==> SafeToken(t)
    ensures Split(Join(parts)) == parts
    decreases |parts|
  {
    if |parts| == 1 {
      SafeHasNoSeparator(parts[0]);
    } else {
      var t := parts[0];
      var rest := Join(parts[1..]);
      var s := t + Separator + rest;
      assert Join(parts) == s;
      FirstSeparatorAfter(t, rest);
      assert s[..|t|] == t;
      assert s[|t| + |Separator|..] == rest;
      SplitJoin(parts[1..]);
      assert parts == [t] + parts[1..];
    }
  }

  // ---------------------------------------------------------------- strip

  /** The characters str.isspace() accepts. */
  predicate IsSpace(c: char)
  {
    c == ' ' || ('\t' <= c <= '\r') || ('\U{001C}' <= c <= '\U{001F}')
    || c == '\U{0085}' || c == '\U{00A0}' || c == '\U{1680}' || ('\U{2000}' <= c <= '\U{200A}')
    || c == '\U{2028}' || c == '\U{2029}' || c == '\U{202F}' || c == '\U{205F}' || c == '\U{3000}'
  }

  predicate NoSpace(s: string)
  {
    forall i :: 0 <= i < |s| ==> !IsSpace(s[i])
  }

  function TrimStart(s: string): string
  {
    if |s| > 0 && IsSpace(s[0]) then TrimStart(s[1..]) else s
  }

  function TrimEnd(s: string): string
  {
    if |s| > 0 && IsSpace(s[|s| - 1]) then TrimEnd(s[..|s| - 1]) else s
  }

  /** str.strip(). */
  function Strip(s: string): (r: string)
    ensures |r| > 0 ==> !IsSpace(r[0]) && !IsSpace(r[|r| - 1])
    ensures NoSpace(s) ==> r == s
  {
    var r := TrimEnd(TrimStart(s));
    TrimStartSpec(s);
    TrimEndSpec(TrimStart(s));
    r
  }

  lemma {:induction false} TrimStartSpec(s: string)
    ensures |TrimStart(s)| > 0 ==> !IsSpace(TrimStart(s)[0])
    ensures NoSpace(s) ==> TrimStart(s) == s
    decreases |s|
  {
    if |s| > 0 && IsSpace(s[0]) {
      TrimStartSpec(s[1..]);
    }
  }

  lemma {:induction false} TrimEndSpec(s: string)
    ensures |TrimEnd(s)| > 0 ==> !IsSpace(TrimEnd(s)[|TrimEnd(s)| - 1])
    ensures NoSpace(s) ==> TrimEnd(s) == s
    ensures |TrimEnd(s)| <= |s| && TrimEnd(s) == s[..|TrimEnd(s)|]
    decreases |s|
  {
    if |s| > 0 && IsSpace(s[|s| - 1]) {
      TrimEndSpec(s[..|s| - 1]);
    }
  }

  predicate StartsWith(s: string, prefix: string)
  {
    |prefix| <= |s| && s[..|prefix|] == prefix
  }

  // ---------------------------------------------------------------- tokens

  /** What a problem token is: non-empty, not "none", without whitespace, safe to join. */
  predicate Token(t: string)
  {
    t != "" && t != NoProblem && NoSpace(t) && SafeToken(t)
  }

  predicate Tokens(ts: seq<string>)
  {
    forall t :: t in ts ==> Token(t)
  }

  lemma SafeConcat(a: string, b: string)
    requires SafeToken(a) && SafeToken(b) && |b| > 0 && b[0] != 'a'
    ensures SafeToken(a + "_" + b)
  {
    var t := a + "_" + b;
    forall i | 0 <= i < |t| - 1
      ensures !(t[i] == '_' && t[i + 1] == 'a')
    {
      if i < |a| - 1 {
        assert t[i] == a[i] && t[i + 1] == a[i + 1];
      } else if i == |a| - 1 {
        assert t[i + 1] == '_';
      } else if i == |a| {
        assert t[i + 1] == b[0];
      } else {
        assert t[i] == b[i - |a| - 1] && t[i + 1] == b[i - |a|];
      }
    }
  }

  lemma NoSpaceConcat(a: string, b: string)
    requires NoSpace(a) && NoSpace(b)
    ensures NoSpace(a + "_" + b)
  {
    var t := a + "_" + b;
    forall i | 0 <= i < |t|
      ensures !IsSpace(t[i])
    {
      if i < |a| {
        assert t[i] == a[i];
      } else if i > |a| {
        assert t[i] == b[i - |a| - 1];
      }
    }
  }

  /** Every problem string the handler writes, such as "impedance_invalid_format", is a
      token. */
  /** Lower-case letters and underscores are not whitespace. */
  lemma LettersNoSpace(s: string)
    requires forall i :: 0 <= i < |s| ==> 'a' <= s[i] <= 'z' || s[i] == '_'
    ensures NoSpace(s)
  {
  }

  lemma KeySafe(key: string)
    requires key in SensorKeys
    ensures SafeToken(key) && NoSpace(key)
  {
    LettersNoSpace(key);
    if key == "weight" {
    } else if key == "impedance" {
    } else {
      assert key == "last_time";
    }
  }

  lemma KindSafe(kind: string)
    requires kind in Kinds
    ensures SafeToken(kind) && NoSpace(kind) && kind[0] != 'a'
  {
    LettersNoSpace(kind);
    if kind == "unavailable" {
    } else if kind == "invalid_format" {
    } else if kind == "low" {
    } else if kind == "high" {
    } else {
      assert kind == "invalid";
    }
  }

  lemma ProblemIsToken(key: string, kind: string)
    requires key in SensorKeys && kind in Kinds
    ensures Token(key + "_" + kind)
  {
    KeySafe(key);
    KindSafe(kind);
    SafeConcat(key, kind);
    NoSpaceConcat(key, kind);
  }

  // ---------------------------------------------------------------- order

  /** Python's string order: lexicographic by code point. */
  predicate Less(a: string, b: string)
    decreases |a|
  {
    if |a| == 0 then |b| > 0
    else if |b| == 0 then false
    else if a[0] != b[0] then a[0] < b[0]
    else Less(a[1..], b[1..])
  }

  lemma {:induction false} LessIrreflexive(a: string)
    ensures !Less(a, a)
    decreases |a|
  {
    if |a| > 0 {
      LessIrreflexive(a[1..]);
    }
  }

  lemma {:induction false} LessTransitive(a: string, b: string, c: string)
    requires Less(a, b) && Less(b, c)
    ensures Less(a, c)
    decreases |a|
  {
    if |a| > 0 && |b| > 0 && |c| > 0 && a[0] == b[0] && b[0] == c[0] {
      LessTransitive(a[1..], b[1..], c[1..]);
    }
  }

  lemma {:induction false} LessTotal(a: string, b: string)
    requires a != b
    ensures Less(a, b) || Less(b, a)
    decreases |a|
  {
    if |a| > 0 && |b| > 0 && a[0] == b[0] {
      assert a == [a[0]] + a[1..] && b == [b[0]] + b[1..];
      LessTotal(a[1..], b[1..]);
    }
  }

  lemma LessAsymmetric(a: string, b: string)
    requires Less(a, b)
    ensures !Less(b, a)
  {
    if Less(b, a) {
      LessTransitive(a, b, a);
      LessIrreflexive(a);
    }
  }

  /** Strictly increasing, hence without duplicates. */
  predicate Sorted(s: seq<string>)
  {
    forall i, j :: 0 <= i < j < |s| ==> Less(s[i], s[j])
  }

  ghost predicate SameElements(a: seq<string>, b: seq<string>)
  {
    forall y :: y in a <==> y in b
  }

  /** Inserting into a sorted list without duplicates. */
  function Insert(x: string, s: seq<string>): (r: seq<string>)
    requires Sorted(s)
    ensures Sorted(r)
    ensures forall y :: y in r <==> y in s || y == x
  {
    if |s| == 0 then [x]
    else if x == s[0] then s
    else if Less(x, s[0]) then
      forall j | 0 < j < |s|
        ensures Less(x, s[j])
      {
        LessTransitive(x, s[0], s[j]);
      }
      [x] + s
    else
      LessTotal(x, s[0]);
      var tail := Insert(x, s[1..]);
      assert forall y :: y in s[1..] ==> Less(s[0], y);
      [s[0]] + tail
  }

  /** sorted(list(set(parts))). */
  function SortedSet(parts: seq<string>): (r: seq<string>)
    ensures Sorted(r) && SameElements(r, parts)
  {
    if parts == [] then []
    else
      var init := parts[..|parts| - 1];
      assert parts == init + [parts[|parts| - 1]];
      Insert(parts[|parts| - 1], SortedSet(init))
  }

  /** Two sorted lists with the same elements are equal: a sorted list is fixed by its
      set of elements. */
  lemma {:induction false} SortedUnique(a: seq<string>, b: seq<string>)
    requires Sorted(a) && Sorted(b) && SameElements(a, b)
    ensures a == b
    decreases |a|
  {
    if |a| > 0 {
      assert a[0] in b;
    }
    if |b| > 0 {
      assert b[0] in a;
    }
    if |a| > 0 && |b| > 0 {
      if a[0] != b[0] {
        assert a[0] in b;
        assert b[0] in a;
        var i :| 0 <= i < |a| && a[i] == b[0];
        var j :| 0 <= j < |b| && b[j] == a[0];
        assert i > 0 && j > 0;
        LessAsymmetric(a[0], a[i]);
      }
      forall y
        ensures y in a[1..] <==> y in b[1..]
      {
        if y in a[1..] {
          var i :| 1 <= i < |a| && a[i] == y;
          assert Less(a[0], y);
          LessIrreflexive(y);
          assert y in b;
        }
        if y in b[1..] {
          var i :| 1 <= i < |b| && b[i] == y;
          assert Less(b[0], y);
          LessIrreflexive(y);
          assert y in a;
        }
      }
      SortedUnique(a[1..], b[1..]);
      assert a == [a[0]] + a[1..] && b == [b[0]] + b[1..];
    }
  }

  // ---------------------------------------------------------------- grouping

  /** The group of the if-elif chain of the grouping loop: weight_, impedance_,
      last_time_, then everything else. */
  function Category(part: string): (c: nat)
    ensures c <= 3
  {
    if StartsWith(part, "weight_") then 0
    else if StartsWith(part, "impedance_") then 1
    else if StartsWith(part, "last_time_") then 2
    else 3
  }

  /** The parts of category c, in order. */
  function Pick(s: seq<string>, c: nat): (r: seq<string>)
    ensures forall y :: y in r <==> y in s && Category(y) == c
  {
    if s == [] then []
    else
      var init := s[..|s| - 1];
      assert s == init + [s[|s| - 1]];
      Pick(init, c) + (if Category(s[|s| - 1]) == c then [s[|s| - 1]] else [])
  }

  /** ordered_problems: the groups one after the other. */
  function Group(s: seq<string>): seq<string>
  {
    Pick(s, 0) + Pick(s, 1) + Pick(s, 2) + Pick(s, 3)
  }

  lemma GroupElements(s: seq<string>)
    ensures SameElements(Group(s), s)
  {
  }

  predicate GroupOrdered(s: seq<string>)
  {
    forall i, j :: 0 <= i < j < |s| ==>
      Category(s[i]) < Category(s[j]) || (Category(s[i]) == Category(s[j]) && Less(s[i], s[j]))
  }

  lemma {:induction false} PickSorted(s: seq<string>, c: nat)
    requires Sorted(s)
    ensures Sorted(Pick(s, c))
    decreases |s|
  {
    if s != [] {
      var init := s[..|s| - 1];
      PickSorted(init, c);
      var last := s[|s| - 1];
      forall y | y in Pick(init, c)
        ensures Less(y, last)
      {
        var i :| 0 <= i < |init| && init[i] == y;
      }
    }
  }

  lemma PickOrdered(s: seq<string>, c: nat)
    requires Sorted(s)
    ensures GroupOrdered(Pick(s, c))
  {
    PickSorted(s, c);
    var p := Pick(s, c);
    forall i, j | 0 <= i < j < |p|
      ensures Category(p[i]) == Category(p[j]) && Less(p[i], p[j])
    {
      assert p[i] in p && p[j] in p;
    }
  }

  lemma OrderedConcat(a: seq<string>, b: seq<string>, c: nat)
    requires GroupOrdered(a) && GroupOrdered(b)
    requires forall x :: x in a ==> Category(x) < c
    requires forall y :: y in b ==> Category(y) >= c
    ensures GroupOrdered(a + b)
  {
    var t := a + b;
    forall i, j | 0 <= i < j < |t|
      ensures Category(t[i]) < Category(t[j]) || (Category(t[i]) == Category(t[j]) && Less(t[i], t[j]))
    {
      if j < |a| {
        assert t[i] == a[i] && t[j] == a[j];
      } else if i >= |a| {
        assert t[i] == b[i - |a|] && t[j] == b[j - |a|];
      } else {
        assert t[i] == a[i] && t[j] == b[j - |a|];
        assert a[i] in a && b[j - |a|] in b;
      }
    }
  }

  /** The grouped list puts the groups in order and keeps each group sorted. */
  lemma GroupIsOrdered(s: seq<string>)
    requires Sorted(s)
    ensures GroupOrdered(Group(s))
  {
    PickOrdered(s, 0);
    PickOrdered(s, 1);
    PickOrdered(s, 2);
    PickOrdered(s, 3);
    OrderedConcat(Pick(s, 0), Pick(s, 1), 1);
    OrderedConcat(Pick(s, 0) + Pick(s, 1), Pick(s, 2), 2);
    OrderedConcat(Pick(s, 0) + Pick(s, 1) + Pick(s, 2), Pick(s, 3), 3);
  }

  /** One more part adds it to the list of its own category and to no other. */
  lemma PickStep(s: seq<string>, i: nat, c: nat)
    requires i < |s|
    ensures Category(s[i]) == c ==> Pick(s[..i + 1], c) == Pick(s[..i], c) + [s[i]]
    ensures Category(s[i]) != c ==> Pick(s[..i + 1], c) == Pick(s[..i], c)
  {
    assert s[..i + 1][..i] == s[..i];
    assert Pick(s[..i], c) + [] == Pick(s[..i], c);
  }

  /** The grouping loop of _add_sensor_problem, one part at a time into four lists. */
  method GroupParts(sortedParts: seq<string>) returns (ordered: seq<string>)
    ensures ordered == Group(sortedParts)
  {
    var weightProblems, impedanceProblems, lastTimeProblems, otherProblems := [], [], [], [];
    var i := 0;
    while i < |sortedParts|
      invariant 0 <= i <= |sortedParts|
      invariant weightProblems == Pick(sortedParts[..i], 0)
      invariant impedanceProblems == Pick(sortedParts[..i], 1)
      invariant lastTimeProblems == Pick(sortedParts[..i], 2)
      invariant otherProblems == Pick(sortedParts[..i], 3)
    {
      var part := sortedParts[i];
      PickStep(sortedParts, i, 0);
      PickStep(sortedParts, i, 1);
      PickStep(sortedParts, i, 2);
      PickStep(sortedParts, i, 3);
      // Category tests the prefixes "weight_", "impedance_" and "last_time_" in turn.
      var category := Category(part);
      if category == 0 {
        weightProblems := weightProblems + [part];
      } else if category == 1 {
        impedanceProblems := impedanceProblems + [part];
      } else if category == 2 {
        lastTimeProblems := lastTimeProblems + [part];
      } else {
        otherProblems := otherProblems + [part];
      }
      i := i + 1;
    }
    assert sortedParts[..i] == sortedParts;
    ordered := [];
    ordered := ordered + weightProblems;
    assert ordered == Pick(sortedParts, 0);
    ordered := ordered + impedanceProblems;
    ordered := ordered + lastTimeProblems;
    ordered := ordered + otherProblems;
  }

  // ---------------------------------------------------------------- add and remove

  /** The stripped parts that are neither empty nor "none". */
  function CleanParts(parts: seq<string>): (r: seq<string>)
    ensures forall y :: y in r ==> y != "" && y != NoProblem
  {
    if parts == [] then []
    else
      var p := Strip(parts[0]);
      (if p != "" && p != NoProblem then [p] else []) + CleanParts(parts[1..])
  }

  /** The stripped parts that are not empty and whose unstripped text does not start
      with the sensor's prefix. */
  function RemainingParts(parts: seq<string>, key: string): seq<string>
  {
    if parts == [] then []
    else
      var p := Strip(parts[0]);
      (if p != "" && !StartsWith(parts[0], key + "_") then [p] else []) + RemainingParts(parts[1..], key)
  }

  /** The final step of both operations: the joined parts, or "none" for no part. */
  function Compose(parts: seq<string>): (r: string)
    ensures r != ""
    ensures parts == [] ==> r == NoProblem
  {
    var joined := Join(parts);
    if joined == "" then NoProblem else joined
  }

  /** _add_sensor_problem once the sensor key is known: the new status. It is never
      empty, and it is the status that lists the parts already there together with the
      new problem, whether or not the problem was among them. */
  function AddProblem(status: string, problem: string): (r: string)
    ensures r != ""
    ensures r == Render(CleanParts(Split(status)) + [problem])
  {
    var parts := CleanParts(Split(status));
    var parts2 := if problem in parts then parts else parts + [problem];
    RenderSet(parts2, parts + [problem]);
    Compose(Group(SortedSet(parts2)))
  }

  /** _remove_sensor_problem once the sensor key is known: the new status, never empty,
      and "none" when no part is left. */
  function RemoveProblem(status: string, key: string): (r: string)
    ensures r != ""
    ensures RemainingParts(Split(status), key) == [] ==> r == NoProblem
  {
    Compose(RemainingParts(Split(status), key))
  }

  /** The status that lists the problems L: what the handler writes for them. It is
      "none" for no problem; for tokens it is never "none" and splits back into the
      sorted, sensor-grouped set of L. */
  function Render(problems: seq<string>): (r: string)
    ensures r != ""
    ensures problems == [] ==> r == NoProblem
    ensures Tokens(problems) && problems != [] ==>
              r != NoProblem && Split(r) == Group(SortedSet(problems))
  {
    var g := Group(SortedSet(problems));
    if Tokens(problems) && problems != [] then
      GroupElements(SortedSet(problems));
      assert problems[0] in g;
      JoinNonEmpty(g);
      SplitJoin(g);
      assert SafeToken(NoProblem);
      SplitJoin([NoProblem]);
      assert problems[0] in Split(Join(g));
      Compose(g)
    else
      Compose(g)
  }

  /** Problems without the sensor's tokens. */
  function DropSensor(s: seq<string>, key: string): (r: seq<string>)
    ensures forall y :: y in r <==> y in s && !StartsWith(y, key + "_")
  {
    if s == [] then []
    else
      var init := s[..|s| - 1];
      assert s == init + [s[|s| - 1]];
      DropSensor(init, key) + (if StartsWith(s[|s| - 1], key + "_") then [] else [s[|s| - 1]])
  }

  lemma {:induction false} JoinNonEmpty(parts: seq<string>)
    requires |parts| >= 1 && forall t :: t in parts ==> t != ""
    ensures Join(parts) != ""
    decreases |parts|
  {
    assert parts[0] in parts;
    if |parts| > 1 {
      assert |Join(parts)| >= |parts[0] + Separator|;
    }
  }

  lemma TokensTail(parts: seq<string>)
    requires Tokens(parts) && parts != []
    ensures Token(parts[0]) && Tokens(parts[1..])
  {
    assert parts[0] in parts;
    forall t | t in parts[1..]
      ensures Token(t)
    {
      var i :| 0 <= i < |parts[1..]| && parts[1..][i] == t;
      assert parts[i + 1] == t;
    }
  }

  lemma {:induction false} CleanTokens(parts: seq<string>)
    requires Tokens(parts)
    ensures CleanParts(parts) == parts
    decreases |parts|
  {
    if parts != [] {
      TokensTail(parts);
      CleanTokens(parts[1..]);
      assert parts == [parts[0]] + parts[1..];
    }
  }

  lemma {:induction false} RemainingTokens(parts: seq<string>, key: string)
    requires Tokens(parts)
    ensures RemainingParts(parts, key) == DropFront(parts, key)
    decreases |parts|
  {
    if parts != [] {
      TokensTail(parts);
      RemainingTokens(parts[1..], key);
    }
  }

  /** DropSensor written front to back, as RemainingParts walks. */
  function DropFront(s: seq<string>, key: string): seq<string>
  {
    if s == [] then []
    else (if StartsWith(s[0], key + "_") then [] else [s[0]]) + DropFront(s[1..], key)
  }

  lemma {:induction false} DropFrontIsDrop(s: seq<string>, key: string)
    ensures DropFront(s, key) == DropSensor(s, key)
    decreases |s|
  {
    if s != [] {
      DropFrontIsDrop(s[1..], key);
      DropConcat([s[0]], s[1..], key);
      assert s == [s[0]] + s[1..];
      assert DropSensor([s[0]], key) == (if StartsWith(s[0], key + "_") then [] else [s[0]]) by {
        assert [s[0]][..0] == [];
      }
    }
  }

  lemma {:induction false} DropConcat(a: seq<string>, b: seq<string>, key: string)
    ensures DropSensor(a + b, key) == DropSensor(a, key) + DropSensor(b, key)
    decreases |b|
  {
    if b != [] {
      var binit := b[..|b| - 1];
      assert a + b == (a + binit) + [b[|b| - 1]];
      assert (a + b)[..|a + b| - 1] == a + binit;
      DropConcat(a, binit, key);
    } else {
      assert a + b == a;
    }
  }

  /** Picking a group and dropping a sensor's tokens commute. */
  lemma {:induction false} PickDrop(s: seq<string>, c: nat, key: string)
    ensures Pick(DropSensor(s, key), c) == DropSensor(Pick(s, c), key)
    decreases |s|
  {
    if s != [] {
      var init := s[..|s| - 1];
      var last := s[|s| - 1];
      PickDrop(init, c, key);
      var d := DropSensor(init, key);
      if !StartsWith(last, key + "_") {
        assert DropSensor(s, key) == d + [last];
        assert (d + [last])[..|d + [last]| - 1] == d;
      } else {
        assert DropSensor(s, key) == d;
      }
      DropConcat(Pick(init, c), if Category(last) == c then [last] else [], key);
      if Category(last) == c {
        assert DropSensor([last], key) == (if StartsWith(last, key + "_") then [] else [last]) by {
          assert [last][..0] == [];
        }
      }
    }
  }

  lemma {:induction false} DropSorted(s: seq<string>, key: string)
    requires Sorted(s)
    ensures Sorted(DropSensor(s, key))
    decreases |s|
  {
    if s != [] {
      var init := s[..|s| - 1];
      DropSorted(init, key);
      var last := s[|s| - 1];
      forall y | y in DropSensor(init, key)
        ensures Less(y, last)
      {
        var i :| 0 <= i < |init| && init[i] == y;
      }
    }
  }

  lemma GroupDrop(s: seq<string>, key: string)
    ensures Group(DropSensor(s, key)) == DropSensor(Group(s), key)
  {
    PickDrop(s, 0, key);
    PickDrop(s, 1, key);
    PickDrop(s, 2, key);
    PickDrop(s, 3, key);
    DropConcat(Pick(s, 0), Pick(s, 1), key);
    DropConcat(Pick(s, 0) + Pick(s, 1), Pick(s, 2), key);
    DropConcat(Pick(s, 0) + Pick(s, 1) + Pick(s, 2), Pick(s, 3), key);
  }

  /** The status of a non-empty list of problems is the grouped list, joined. */
  lemma RenderParts(problems: seq<string>)
    requires Tokens(problems) && problems != []
    ensures Render(problems) == Join(Group(SortedSet(problems)))
    ensures Split(Render(problems)) == Group(SortedSet(problems))
  {
    var g := Group(SortedSet(problems));
    GroupElements(SortedSet(problems));
    assert problems[0] in g;
    JoinNonEmpty(g);
    SplitJoin(g);
  }

  lemma RenderNoProblems()
    ensures Render([]) == NoProblem
    ensures Split(NoProblem) == [NoProblem]
  {
    assert SafeToken(NoProblem);
    SplitJoin([NoProblem]);
  }

  /** The status depends only on the set of problems: duplicates and order do not
      matter. */
  lemma RenderSet(a: seq<string>, b: seq<string>)
    requires SameElements(a, b)
    ensures Render(a) == Render(b)
  {
    SortedUnique(SortedSet(a), SortedSet(b));
  }

  /** Adding a problem to the status of L gives the status of L with the problem. */
  lemma AddRender(problems: seq<string>, problem: string)
    requires Tokens(problems) && Token(problem)
    ensures AddProblem(Render(problems), problem) == Render(problems + [problem])
  {
    if problems == [] {
      RenderNoProblems();
      assert NoSpace(NoProblem);
      assert CleanParts([NoProblem]) == [];
    } else {
      var g := Group(SortedSet(problems));
      RenderParts(problems);
      GroupElements(SortedSet(problems));
      CleanTokens(g);
      var parts2 := if problem in g then g else g + [problem];
      RenderSet(parts2, problems + [problem]);
    }
  }

  /** Removing a sensor's problems from the status of L gives the status of L without
      that sensor's tokens. */
  lemma RemoveRender(problems: seq<string>, key: string)
    requires Tokens(problems)
    ensures RemoveProblem(Render(problems), key) == Render(DropSensor(problems, key))
  {
    if problems == [] {
      RenderNoProblems();
      assert NoSpace(NoProblem);
      assert DropSensor([], key) == [];
      var p := key + "_";
      if |p| <= |NoProblem| {
        assert p[|key|] == '_';
        assert NoProblem[|key|] != '_';
        assert NoProblem[..|p|][|key|] != '_';
      }
      assert RemainingParts([NoProblem], key) == [NoProblem];
    } else {
      var s := SortedSet(problems);
      var g := Group(s);
      RenderParts(problems);
      GroupElements(s);
      RemainingTokens(g, key);
      DropFrontIsDrop(g, key);
      GroupDrop(s, key);
      DropSorted(s, key);
      SortedUnique(DropSensor(s, key), SortedSet(DropSensor(problems, key)));
    }
  }

  /** Adding the same problem twice is adding it once. */
  lemma AddIdempotent(problems: seq<string>, problem: string)
    requires Tokens(problems) && Token(problem)
    ensures AddProblem(AddProblem(Render(problems), problem), problem) == AddProblem(Render(problems), problem)
  {
    AddRender(problems, problem);
    AddRender(problems + [problem], problem);
    RenderSet(problems + [problem] + [problem], problems + [problem]);
  }

  /** Problems added in either order give the same status. */
  lemma AddCommutes(problems: seq<string>, p: string, q: string)
    requires Tokens(problems) && Token(p) && Token(q)
    ensures AddProblem(AddProblem(Render(problems), p), q) == AddProblem(AddProblem(Render(problems), q), p)
  {
    AddRender(problems, p);
    AddRender(problems + [p], q);
    AddRender(problems, q);
    AddRender(problems + [q], p);
    RenderSet(problems + [p] + [q], problems + [q] + [p]);
  }

  /** The empty list, and only it, shows as "none". */
  lemma RenderNone(problems: seq<string>)
    requires Tokens(problems)
    ensures Render(problems) == NoProblem <==> problems == []
  {
    if problems != [] {
      RenderParts(problems);
      var g := Group(SortedSet(problems));
      GroupElements(SortedSet(problems));
      assert problems[0] in Split(Render(problems));
      assert problems[0] in problems;
      RenderNoProblems();
    } else {
      RenderNoProblems();
    }
  }

  /** Clearing a sensor's problems and then adding one for it leaves exactly that one
      token for the sensor. */
  lemma OneProblemPerSensor(problems: seq<string>, key: string, problem: string)
    requires Tokens(problems) && Token(problem) && StartsWith(problem, key + "_")
    ensures var parts := Split(AddProblem(RemoveProblem(Render(problems), key), problem));
            forall p :: p in parts && StartsWith(p, key + "_") <==> p == problem
  {
    var rest := DropSensor(problems, key);
    RemoveRender(problems, key);
    AddRender(rest, problem);
    RenderParts(rest + [problem]);
    GroupElements(SortedSet(rest + [problem]));
  }
}
