/** Sequence extrapolation: the next value of a sequence is its last value
    plus the predicted next value of its sequence of differences, until the
    differences are all equal. */
module Day9 {
  import opened Common

  /** Consecutive differences (`windows(2)` mapped to `b - a`). */
  function Diffs(items: seq<int>): (d: seq<int>)
    ensures |d| == if |items| == 0 then 0 else |items| - 1
    ensures forall i | 0 <= i < |d| :: d[i] == items[i + 1] - items[i]
  {
    if |items| < 2 then [] else [items[1] - items[0]] + Diffs(items[1..])
  }

  /** The distinct values of a sequence (the `HashSet` built from it). */
  function Uniques(d: seq<int>): set<int> {
    set i | 0 <= i < |d| :: d[i]
  }

  predicate AllEqual(d: seq<int>) {
    forall i | 0 <= i < |d| :: d[i] == d[0]
  }

  /** A sequence has exactly one distinct value iff it is non-empty and
      constant. */
  lemma UniquesSingleton(d: seq<int>)
    ensures |Uniques(d)| == 1 <==> |d| > 0 && AllEqual(d)
  {
    if |d| > 0 && AllEqual(d) {
      assert Uniques(d) == {d[0]};
    }
    if |Uniques(d)| == 1 {
      assert d[0] in Uniques(d);
      forall i | 0 <= i < |d| ensures d[i] == d[0] {
        assert d[i] in Uniques(d);
        var rest := Uniques(d) - {d[0]};
        assert |rest| == 0;
        assert d[i] !in rest;
      }
    }
  }

  /** `predict_next`: needs two values, since it takes the last value and the
      last difference. The source stops when the set of differences has one
      element; the differences are never empty here, so by `UniquesSingleton`
      that is the test `AllEqual`. */
  function PredictNext(items: seq<int>): int
    requires |items| >= 2
    decreases |items|
  {
    var last := items[|items| - 1];
    var diffs := Diffs(items);
    if AllEqual(diffs) then last + diffs[|diffs| - 1]
    else last + PredictNext(diffs)
  }

  /** The stopping test above is the source's `uniques.len() == 1`. */
  lemma PredictNextStops(items: seq<int>)
    requires |items| >= 2
    ensures |Uniques(Diffs(items))| == 1 <==> AllEqual(Diffs(items))
  {
    UniquesSingleton(Diffs(items));
  }

  /** When every difference is the same, the prediction adds it once more. */
  lemma PredictConstantStep(items: seq<int>, step: int)
    requires |items| >= 2
    requires forall i | 0 <= i < |Diffs(items)| :: Diffs(items)[i] == step
    ensures PredictNext(items) == items[|items| - 1] + step
  {
  }

  /** Otherwise the prediction adds the last value to the prediction for the
      differences. */
  lemma PredictRecurses(items: seq<int>, d: seq<int>)
    requires |items| >= 2 && d == Diffs(items)
    requires exists i | 0 <= i < |d| :: d[i] != d[0]
    ensures |d| >= 2 && PredictNext(items) == items[|items| - 1] + PredictNext(d)
  {
  }

  // ---------------------------------------------------------------------
  // Polynomial sequences, described by their difference table

  function Head(cs: seq<int>): int { if cs == [] then 0 else cs[0] }
  function Tail(cs: seq<int>): seq<int> { if cs == [] then [] else cs[1..] }

  /** The value at `i` of the sequence whose difference table starts with
      the column `cs`: `cs[0]` is its first value, `cs[1]` the first value
      of its differences, and so on; a polynomial of degree below `|cs|`. */
  function Poly(cs: seq<int>, i: nat): int
    decreases i
  {
    if i == 0 then Head(cs) else Poly(cs, i - 1) + Poly(Tail(cs), i - 1)
  }

  /** The first `n` values of that polynomial. */
  function Sample(cs: seq<int>, n: nat): (s: seq<int>)
    ensures |s| == n && forall i | 0 <= i < n :: s[i] == Poly(cs, i)
  {
    seq(n, i requires 0 <= i < n => Poly(cs, i))
  }

  lemma DiffsOfSample(cs: seq<int>, n: nat)
    requires n >= 1
    ensures Diffs(Sample(cs, n)) == Sample(Tail(cs), n - 1)
  {
    var s, d := Sample(cs, n), Sample(Tail(cs), n - 1);
    forall i | 0 <= i < n - 1 ensures Diffs(s)[i] == d[i] {
      assert Poly(cs, i + 1) == Poly(cs, i) + Poly(Tail(cs), i);
    }
  }

  /** A polynomial of degree below `|cs|` that vanishes at `|cs|` consecutive
      points vanishes at the next one too. */
  lemma {:induction false} VanishingPoly(cs: seq<int>, m: nat)
    requires m >= |cs|
    requires forall i | 0 <= i < m :: Poly(cs, i) == 0
    ensures Poly(cs, m) == 0
  {
    if m == 0 {
      assert cs == [];
    } else if cs == [] {
      ZeroPoly(m);
    } else {
      forall i | 0 <= i < m - 1 ensures Poly(Tail(cs), i) == 0 {
        assert Poly(cs, i + 1) == Poly(cs, i) + Poly(Tail(cs), i);
      }
      VanishingPoly(Tail(cs), m - 1);
    }
  }

  lemma {:induction false} ZeroPoly(i: nat)
    ensures Poly([], i) == 0
  {
    if i > 0 { ZeroPoly(i - 1); }
  }

  /** If a polynomial of degree below `|cs|` takes the same value at more
      than `|cs|` consecutive points, it keeps that value at the next one. */
  lemma ConstantPoly(cs: seq<int>, m: nat)
    requires m >= |cs| + 1
    requires forall i | 0 <= i < m :: Poly(cs, i) == Poly(cs, 0)
    ensures Poly(cs, m) == Poly(cs, m - 1)
  {
    forall i | 0 <= i < m - 1 ensures Poly(Tail(cs), i) == 0 {
      assert Poly(cs, i + 1) == Poly(cs, i) + Poly(Tail(cs), i);
    }
    VanishingPoly(Tail(cs), m - 1);
  }

  /** The prediction is exact for polynomials: given at least two more
      samples than the polynomial's degree, `PredictNext` returns its value
      at the next point. */
  lemma {:induction false} PredictPolynomial(cs: seq<int>, n: nat)
    requires n >= 2 && n >= |cs| + 1
    ensures PredictNext(Sample(cs, n)) == Poly(cs, n)
    decreases n
  {
    var s := Sample(cs, n);
    var d := Diffs(s);
    DiffsOfSample(cs, n);
    if AllEqual(d) {
      forall i | 0 <= i < n - 1 ensures Poly(Tail(cs), i) == Poly(Tail(cs), 0) {
        assert d[i] == d[0];
      }
      ConstantPoly(Tail(cs), n - 1);
    } else {
      PredictPolynomial(Tail(cs), n - 1);
    }
  }

  /** The four worked examples. */
  lemma ExampleLinear()
    ensures PredictNext([1, 2, 3, 4]) == 5
    ensures PredictNext([0, 3, 6, 9, 12, 15]) == 18
  {
    DiffsOf([1, 2, 3, 4], [1, 1, 1]);
    PredictConstantStep([1, 2, 3, 4], 1);
    DiffsOf([0, 3, 6, 9, 12, 15], [3, 3, 3, 3, 3]);
    PredictConstantStep([0, 3, 6, 9, 12, 15], 3);
  }

  lemma ExampleQuadratic(items: seq<int>)
    requires items == [1, 3, 6, 10, 15, 21]
    ensures PredictNext(items) == 28
  {
    var d := [2, 3, 4, 5, 6];
    DiffsOf(items, d);
    DiffsOf(d, [1, 1, 1, 1]);
    PredictTwoLevels(items, d, 1);
  }

  lemma ExampleCubic()
    ensures PredictNext([10, 13, 16, 21, 30, 45]) == 68
  {
    var d1 := [3, 3, 5, 9, 15];
    DiffsOf([10, 13, 16, 21, 30, 45], d1);
    assert d1[2] != d1[0];
    PredictRecurses([10, 13, 16, 21, 30, 45], d1);
    ExampleQuadraticDiffs();
  }

  /** The differences of the cubic example form a quadratic sequence. */
  lemma ExampleQuadraticDiffs()
    ensures PredictNext([3, 3, 5, 9, 15]) == 23
  {
    var d2 := [0, 2, 4, 6];
    DiffsOf([3, 3, 5, 9, 15], d2);
    DiffsOf(d2, [2, 2, 2]);
    PredictTwoLevels([3, 3, 5, 9, 15], d2, 2);
  }

  /** A sequence whose differences are not constant but whose second
      differences are: two steps of the recursion. */
  lemma PredictTwoLevels(items: seq<int>, d: seq<int>, step: int)
    requires |items| >= 3 && Diffs(items) == d && d[1] != d[0]
    requires forall i | 0 <= i < |Diffs(d)| :: Diffs(d)[i] == step
    ensures PredictNext(items) == items[|items| - 1] + d[|d| - 1] + step
  {
    PredictRecurses(items, d);
    PredictConstantStep(d, step);
  }

  /** The differences of a sequence, checked entry by entry. */
  lemma DiffsOf(items: seq<int>, d: seq<int>)
    requires |items| == |d| + 1
    requires forall i | 0 <= i < |d| :: d[i] == items[i + 1] - items[i]
    ensures Diffs(items) == d
  {
    var r := Diffs(items);
    assert |r| == |d|;
    forall i | 0 <= i < |d| ensures r[i] == d[i] {
      assert r[i] == items[i + 1] - items[i];
    }
  }

  // ---------------------------------------------------------------------
  // Parsing and the two answers

  function Reverse(s: seq<int>): (r: seq<int>)
    ensures |r| == |s| && forall i | 0 <= i < |s| :: r[i] == s[|s| - 1 - i]
  {
    if s == [] then [] else Reverse(s[1..]) + [s[0]]
  }

  /** `parse_line`: the whitespace-separated integers of the line, reversed
      when `reverse` is set; `None` when one of them is not an integer. */
  function ParseLine(line: string, reverse: bool): (r: Option<seq<int>>)
    ensures r.Some? <==> ParseInts(Words(line)).Some?
    ensures r.Some? ==> r.value == if reverse then Reverse(ParseInts(Words(line)).value) else ParseInts(Words(line)).value
  {
    match ParseInts(Words(line))
    case None => None
    case Some(items) => Some(if reverse then Reverse(items) else items)
  }

  /** Sum of the predictions for every line; `None` when a line does not
      parse or holds fewer than two numbers. */
  function SumPredictions(lines: seq<string>, reverse: bool): Option<int> {
    if lines == [] then Some(0)
    else
      match (ParseLine(lines[0], reverse), SumPredictions(lines[1..], reverse))
      case (Some(items), Some(rest)) => if |items| >= 2 then Some(PredictNext(items) + rest) else None
      case _ => None
  }

  /** `exec`: predictions forward, then backward (on the reversed lines). */
  function Exec(source: string): (r: Option<(int, int)>)
    ensures r.Some? <==> SumPredictions(Split(source, "\n"), false).Some? && SumPredictions(Split(source, "\n"), true).Some?
  {
    var lines := Split(source, "\n");
    match (SumPredictions(lines, false), SumPredictions(lines, true))
    case (Some(a), Some(b)) => Some((a, b))
    case _ => None
  }

  /** `test_parse_line`: "1 2 3", read forwards, is the numbers 1, 2, 3. */
  lemma ExampleParseLine()
    ensures ParseLine("1 2 3", false) == Some([1, 2, 3])
  {
    ExampleWords();
    ExampleNumbers();
  }

  /** "1 2 3" is the words "1", "2" and "3". */
  lemma ExampleWords()
    ensures Words("1 2 3") == ["1", "2", "3"]
  {
    ExampleSpaced();
    WordsThree("1", "2", "3");
  }

  /** "1 2 3" is three digits with a space after each of the first two. */
  lemma ExampleSpaced()
    ensures "1 2 3" == "1" + [' '] + ("2" + [' '] + "3")
  {
  }

  /** Three words with single spaces between them. */
  lemma WordsThree(a: string, b: string, c: string)
    requires |a| > 0 && forall i | 0 <= i < |a| :: !IsWhitespace(a[i])
    requires |b| > 0 && forall i | 0 <= i < |b| :: !IsWhitespace(b[i])
    requires |c| > 0 && forall i | 0 <= i < |c| :: !IsWhitespace(c[i])
    ensures Words(a + [' '] + (b + [' '] + c)) == [a, b, c]
  {
    WordsAfter(a, ' ', b + [' '] + c);
    WordsAfter(b, ' ', c);
    WordsOne(c);
  }

  /** The words "1", "2" and "3" are the numbers 1, 2 and 3. */
  lemma ExampleNumbers()
    ensures ParseInts(["1", "2", "3"]) == Some([1, 2, 3])
  {
    var words := ["1", "2", "3"];
    assert ParseInt(words[0]) == Some(1) && ParseInt(words[1]) == Some(2) && ParseInt(words[2]) == Some(3);
    var r := ParseInts(words);
    assert r.Some? && |r.value| == 3 && r.value[0] == 1 && r.value[1] == 2 && r.value[2] == 3;
    assert r.value == [1, 2, 3];
  }
}
