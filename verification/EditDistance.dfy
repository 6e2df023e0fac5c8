/** Character accuracy by a two-row edit distance (backend/scripts/benchmark_alpr.py). */
module EditDistance {
  import opened Common

  function Init(s: string): string
    requires s != ""
  {
    s[..|s| - 1]
  }

  function Last(s: string): char
    requires s != ""
  {
    s[|s| - 1]
  }

  function Differ(x: char, y: char): nat { if x != y then 1 else 0 }

  /** The Levenshtein distance, by recursion on the last characters. */
  function Distance(a: string, b: string): nat
    decreases |a| + |b|
  {
    if a == "" then |b|
    else if b == "" then |a|
    else Min(Distance(a, Init(b)) + 1,
             Min(Distance(Init(a), b) + 1,
                 Distance(Init(a), Init(b)) + Differ(Last(a), Last(b))))
  }

  /** The distance of two longer strings, from the distances of what they extend. */
  lemma Extend(a: string, b: string, x: char, y: char)
    ensures Distance(a + [x], b + [y])
         == Min(Distance(a + [x], b) + 1,
                Min(Distance(a, b + [y]) + 1, Distance(a, b) + Differ(x, y)))
  {
    assert Init(a + [x]) == a && Init(b + [y]) == b;
  }

  lemma DistanceFromEmpty(s: string)
    ensures Distance("", s) == |s| && Distance(s, "") == |s|
  {
  }

  lemma Rejoin(s: string)
    ensures s != "" ==> Init(s) + [Last(s)] == s
    ensures s + "" == s
  {
  }

  /** One cell of the table, from its three neighbours. */
  lemma Cell(a: string, b: string, i: nat, j: nat)
    requires i < |a| && j < |b|
    ensures Distance(a[..i + 1], b[..j + 1])
         == Min(Distance(a[..i + 1], b[..j]) + 1,
                Min(Distance(a[..i], b[..j + 1]) + 1,
                    Distance(a[..i], b[..j]) + Differ(a[i], b[j])))
  {
    hide Distance;
    assert a[..i + 1] == a[..i] + [a[i]] && b[..j + 1] == b[..j] + [b[j]];
    Extend(a[..i], b[..j], a[i], b[j]);
  }

  /** A row of the table: the distances from one prefix to every prefix up to a length. */
  ghost predicate IsRow(cells: seq<nat>, a: string, b: string) {
    |cells| <= |b| + 1 && forall j :: 0 <= j < |cells| ==> cells[j] == Distance(a, b[..j])
  }

  lemma ExtendRow(cells: seq<nat>, a: string, b: string, cell: nat)
    requires IsRow(cells, a, b) && |cells| <= |b|
    requires cell == Distance(a, b[..|cells|])
    ensures IsRow(cells + [cell], a, b)
  {
    hide Distance;
  }

  /** The inner loop: one row of the table, from the row above it. */
  method NextRow(expected: string, actual: string, row: nat, previous: seq<nat>)
    returns (current: seq<nat>)
    requires row < |expected|
    requires |previous| == |actual| + 1 && IsRow(previous, expected[..row], actual)
    ensures |current| == |actual| + 1 && IsRow(current, expected[..row + 1], actual)
  {
    hide Distance;
    current := [row + 1];
    DistanceFromEmpty(expected[..row + 1]);
    assert actual[..0] == "" && |expected[..row + 1]| == row + 1;
    for column := 0 to |actual|
      invariant |current| == column + 1 && IsRow(current, expected[..row + 1], actual)
    {
      Cell(expected, actual, row, column);
      var best := Min(current[column] + 1,
                      Min(previous[column + 1] + 1,
                          previous[column] + Differ(expected[row], actual[column])));
      ExtendRow(current, expected[..row + 1], actual, best);
      current := current + [best];
    }
  }

  /** The two-row table, whose last cell is the distance. */
  method TwoRowDistance(expected: string, actual: string) returns (d: nat)
    ensures d == Distance(expected, actual)
  {
    hide Distance;
    var previous: seq<nat> := seq(|actual| + 1, i => i);
    assert expected[..0] == "";
    forall j | 0 <= j <= |actual| ensures Distance("", actual[..j]) == j {
      DistanceFromEmpty(actual[..j]);
    }
    for row := 0 to |expected|
      invariant |previous| == |actual| + 1 && IsRow(previous, expected[..row], actual)
    {
      previous := NextRow(expected, actual, row, previous);
    }
    assert expected[..|expected|] == expected && actual[..|actual|] == actual;
    d := previous[|actual|];
  }

  // ---------------------------------------------------------------------------------------
  // The distance is the least cost of turning one string into the other.
  // ---------------------------------------------------------------------------------------

  datatype Edit = Keep(c: char) | Replace(from: char, to: char) | Insert(c: char) | Delete(c: char)

  function Before(e: Edit): string {
    match e
    case Keep(c) => [c]
    case Replace(from, _) => [from]
    case Insert(_) => ""
    case Delete(c) => [c]
  }

  function After(e: Edit): string {
    match e
    case Keep(c) => [c]
    case Replace(_, to) => [to]
    case Insert(c) => [c]
    case Delete(_) => ""
  }

  /** The string an edit script reads. */
  function Source(script: seq<Edit>): string {
    if script == [] then "" else Source(script[..|script| - 1]) + Before(script[|script| - 1])
  }

  /** The string an edit script writes. */
  function Target(script: seq<Edit>): string {
    if script == [] then "" else Target(script[..|script| - 1]) + After(script[|script| - 1])
  }

  /** The number of edits of a script that change something. */
  function Cost(script: seq<Edit>): nat {
    if script == [] then 0
    else Cost(script[..|script| - 1]) + if script[|script| - 1].Keep? then 0 else 1
  }

  lemma EditStep(a: string, b: string, e: Edit)
    ensures Distance(a + Before(e), b + After(e)) <= Distance(a, b) + if e.Keep? then 0 else 1
  {
    hide Distance;
    Rejoin(a);
    Rejoin(b);
    match e
    case Keep(c) => Extend(a, b, c, c);
    case Replace(from, to) => Extend(a, b, from, to);
    case Insert(c) => AppendCostsOne(a, b, c);
    case Delete(c) =>
      AppendCostsOne(b, a, c);
      DistanceSymmetric(a, b);
      DistanceSymmetric(a + [c], b);
  }

  lemma AppendCostsOne(a: string, b: string, c: char)
    ensures Distance(a, b + [c]) <= Distance(a, b) + 1
  {
    hide Distance;
    DistanceFromEmpty(b);
    DistanceFromEmpty(b + [c]);
    Rejoin(a);
    if a != "" {
      Extend(Init(a), b, Last(a), c);
    }
  }

  /** No edit script is cheaper than the distance. */
  lemma {:induction false} NoScriptIsCheaper(script: seq<Edit>)
    ensures Distance(Source(script), Target(script)) <= Cost(script)
  {
    if script != [] {
      var shorter := script[..|script| - 1];
      var e := script[|script| - 1];
      NoScriptIsCheaper(shorter);
      EditStep(Source(shorter), Target(shorter), e);
    }
  }

  lemma ScriptAppend(script: seq<Edit>, e: Edit)
    ensures Source(script + [e]) == Source(script) + Before(e)
    ensures Target(script + [e]) == Target(script) + After(e)
    ensures Cost(script + [e]) == Cost(script) + if e.Keep? then 0 else 1
  {
    assert (script + [e])[..|script|] == script;
  }

  /** Some edit script from one string to the other costs exactly the distance. */
  lemma {:induction false} CheapestScript(a: string, b: string) returns (script: seq<Edit>)
    ensures Source(script) == a && Target(script) == b
    ensures Cost(script) == Distance(a, b)
    decreases |a| + |b|
  {
    if a == "" && b == "" {
      script := [];
    } else {
      var e: Edit;
      if a == "" || (b != "" && Distance(a, b) == Distance(a, Init(b)) + 1) {
        script := CheapestScript(a, Init(b));
        e := Insert(Last(b));
      } else if b == "" || Distance(a, b) == Distance(Init(a), b) + 1 {
        script := CheapestScript(Init(a), b);
        e := Delete(Last(a));
      } else {
        script := CheapestScript(Init(a), Init(b));
        e := if Last(a) == Last(b) then Keep(Last(a)) else Replace(Last(a), Last(b));
      }
      ScriptAppend(script, e);
      script := script + [e];
      Rejoin(a);
      Rejoin(b);
    }
  }

  // ---------------------------------------------------------------------------------------
  // It is a metric, bounded by the lengths.
  // ---------------------------------------------------------------------------------------

  lemma {:induction false} DistanceBounds(a: string, b: string)
    ensures |a| - |b| <= Distance(a, b) && |b| - |a| <= Distance(a, b)
    ensures Distance(a, b) <= |a| || Distance(a, b) <= |b|
    decreases |a| + |b|
  {
    if a != "" && b != "" {
      DistanceBounds(a, Init(b));
      DistanceBounds(Init(a), b);
      DistanceBounds(Init(a), Init(b));
    }
  }

  lemma {:induction false} DistanceZero(a: string, b: string)
    ensures Distance(a, b) == 0 <==> a == b
    decreases |a| + |b|
  {
    if a != "" && b != "" {
      DistanceZero(Init(a), Init(b));
      assert a == Init(a) + [Last(a)] && b == Init(b) + [Last(b)];
    }
  }

  lemma {:induction false} DistanceSymmetric(a: string, b: string)
    ensures Distance(a, b) == Distance(b, a)
    decreases |a| + |b|
  {
    if a != "" && b != "" {
      DistanceSymmetric(a, Init(b));
      DistanceSymmetric(Init(a), b);
      DistanceSymmetric(Init(a), Init(b));
    }
  }

  /** The definition, unfolded once. */
  lemma Unfold(a: string, b: string)
    requires a != "" && b != ""
    ensures Distance(a, b) == Min(Distance(a, Init(b)) + 1,
                                  Min(Distance(Init(a), b) + 1,
                                      Distance(Init(a), Init(b)) + Differ(Last(a), Last(b))))
  {
    hide Distance;
    Rejoin(a);
    Rejoin(b);
    Extend(Init(a), Init(b), Last(a), Last(b));
  }

  lemma {:induction false} TriangleInequality(a: string, b: string, c: string)
    ensures Distance(a, c) <= Distance(a, b) + Distance(b, c)
    decreases |a| + |b| + |c|
  {
    hide Distance;
    DistanceBounds(a, b);
    DistanceBounds(b, c);
    DistanceBounds(a, c);
    if a == "" {
      DistanceFromEmpty(b);
      DistanceFromEmpty(c);
    } else if c == "" {
      DistanceFromEmpty(a);
      DistanceFromEmpty(b);
    } else if b == "" {
      DistanceFromEmpty(a);
      DistanceFromEmpty(c);
    } else {
      Unfold(a, b);
      Unfold(b, c);
      Unfold(a, c);
      if Distance(a, b) == Distance(Init(a), b) + 1 {
        TriangleInequality(Init(a), b, c);
      } else if Distance(b, c) == Distance(b, Init(c)) + 1 {
        TriangleInequality(a, b, Init(c));
      } else if Distance(a, b) == Distance(a, Init(b)) + 1 {
        TriangleInequality(a, Init(b), c);
        TriangleInequality(a, Init(b), Init(c));
      } else {
        TriangleInequality(Init(a), Init(b), c);
        TriangleInequality(Init(a), Init(b), Init(c));
      }
    }
  }

  // ---------------------------------------------------------------------------------------
  // Accuracy
  // ---------------------------------------------------------------------------------------

  /** One minus the distance per expected character, floored at zero. */
  function Score(d: nat, n: nat): real
    requires n > 0
  {
    var score := 1.0 - (d as real) / (n as real);
    if score > 0.0 then score else 0.0
  }

  lemma ScoreFacts(d: nat, n: nat)
    requires n > 0
    ensures 0.0 <= Score(d, n) <= 1.0
    ensures Score(d, n) == 1.0 <==> d == 0
    ensures Score(d, n) == 0.0 <==> d >= n
  {
    var x, y := d as real, n as real;
    var q := x / y;
    if q >= 1.0 {
      assert q * y - y == (q - 1.0) * y >= 0.0;
    } else {
      assert y - q * y == (1.0 - q) * y > 0.0;
    }
  }

  function Accuracy(expected: string, actual: string): real {
    if expected == "" then if actual == "" then 1.0 else 0.0
    else Score(Distance(expected, actual), |expected|)
  }

  /** Accuracy is a fraction, perfect for equal strings only, and zero exactly for a wrong string
      at least as far away as the expected string is long. */
  lemma AccuracyMeaning(expected: string, actual: string)
    ensures 0.0 <= Accuracy(expected, actual) <= 1.0
    ensures Accuracy(expected, actual) == 1.0 <==> expected == actual
    ensures Accuracy(expected, actual) == 0.0
       <==> expected != actual && Distance(expected, actual) >= |expected|
  {
    DistanceZero(expected, actual);
    if expected != "" {
      ScoreFacts(Distance(expected, actual), |expected|);
    }
  }

  /** Between its ends the score falls evenly: each edit costs one part in the length of the expected string,
      until there is nothing left. */
  lemma EachEditCostsOnePart(expected: string, actual: string)
    requires expected != ""
    ensures Accuracy(expected, actual) * (|expected| as real)
         == if Distance(expected, actual) <= |expected| then (|expected| - Distance(expected, actual)) as real else 0.0
  {
    hide Distance;
    var x, y := Distance(expected, actual) as real, |expected| as real;
    var q := x / y;
    assert q * y == x && (1.0 - q) * y == y - x;
    ScoreFacts(Distance(expected, actual), |expected|);
  }

  /** A score compares lengths when nothing was expected. */
  lemma NothingExpected(actual: string)
    ensures Accuracy("", actual) == if |actual| == 0 then 1.0 else 0.0
  {
  }

  /** The score of a recognised string against the expected one. Either script's normalisation
      may be passed in; a missing string is the empty string. */
  method CharacterAccuracy(normalize: string -> string, expectedRaw: string, actualRaw: string)
    returns (accuracy: real)
    ensures accuracy == Accuracy(normalize(expectedRaw), normalize(actualRaw))
  {
    var expected, actual := normalize(expectedRaw), normalize(actualRaw);
    if expected == "" {
      return if actual == "" then 1.0 else 0.0;
    }
    var d := TwoRowDistance(expected, actual);
    accuracy := Score(d, |expected|);
  }
}
