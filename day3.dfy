/** Gear ratios, part one: the numbers of an engine schematic that touch a
    symbol, horizontally, vertically or diagonally, are part numbers, and
    the answer is their sum. */
module Day3 {
  import opened Common

  /** A cell of the schematic: column `x`, line `y`. */
  datatype Point = Point(x: int, y: int)

  /** A number of the schematic and where its first digit is. */
  datatype Part = Part(number: string, coord: Point)

  /** `Part::value`: the number parsed as an `i32` (it is made of digits, so
      the parse does not fail for the parts the parser builds). */
  function Value(part: Part): Option<int> {
    ParseInt(part.number)
  }

  /** `Part::in_range`: the point lies in the box one cell larger than the
      number on every side. */
  predicate InRange(part: Part, point: Point) {
    var minX, maxX := part.coord.x - 1, part.coord.x + |part.number|;
    var minY, maxY := part.coord.y - 1, part.coord.y + 1;
    point.x >= minX && point.x <= maxX && point.y >= minY && point.y <= maxY
  }

  /** Two cells touch when they are equal or neighbours, diagonals included. */
  predicate Touches(a: Point, b: Point) {
    -1 <= a.x - b.x <= 1 && -1 <= a.y - b.y <= 1
  }

  /** The cell of the `i`-th digit of a number. */
  function DigitCell(part: Part, i: int): Point {
    Point(part.coord.x + i, part.coord.y)
  }

  /** A point is in range of a number exactly when it touches one of the
      number's digits. */
  lemma InRangeIff(part: Part, point: Point)
    requires |part.number| > 0
    ensures InRange(part, point) <==>
      exists i | 0 <= i < |part.number| :: Touches(point, DigitCell(part, i))
  {
    if InRange(part, point) {
      var i := if point.x < part.coord.x then 0
               else if point.x >= part.coord.x + |part.number| then |part.number| - 1
               else point.x - part.coord.x;
      assert Touches(point, DigitCell(part, i));
    }
  }

  /** Parsed numbers have the value of their digits. */
  lemma ValueOfDigits(part: Part)
    requires |part.number| > 0 && AllDigits(part.number)
    ensures Value(part) == Some(DigitsValue(part.number))
  {
  }

  // ---------------------------------------------------------------------
  // Parsing

  /** A character that marks a symbol: neither a digit nor '.'. */
  predicate IsSymbol(c: char) {
    !IsDigit(c) && c != '.'
  }

  /** The symbols of a line, left to right. */
  function SymbolPoints(line: string, y: int): seq<Point> {
    if line == [] then []
    else
      var init := SymbolPoints(line[..|line| - 1], y);
      if IsSymbol(line[|line| - 1]) then init + [Point(|line| - 1, y)] else init
  }

  /** A point is listed exactly when its line is `y` and a symbol is in its
      column, and the points come left to right. */
  lemma {:induction false} SymbolPointsAre(line: string, y: int)
    ensures forall p :: p in SymbolPoints(line, y) <==> p.y == y && 0 <= p.x < |line| && IsSymbol(line[p.x])
    ensures forall k, l | 0 <= k < l < |SymbolPoints(line, y)| :: SymbolPoints(line, y)[k].x < SymbolPoints(line, y)[l].x
  {
    if line != [] {
      var init := line[..|line| - 1];
      SymbolPointsAre(init, y);
      forall p | p in SymbolPoints(init, y) ensures p.x < |init| && line[p.x] == init[p.x] {
      }
    }
  }

  /** The numbers of a line, one per maximal run of digits. */
  function PartsOf(runs: seq<Run>, y: int): (parts: seq<Part>)
    ensures |parts| == |runs|
  {
    seq(|runs|, k requires 0 <= k < |runs| => Part(runs[k].digits, Point(runs[k].start, y)))
  }

  /** What `parse_line` returns for a line at index `y`. */
  function LineParts(line: string, y: int): seq<Part> {
    PartsOf(Runs(line), y)
  }

  /** The parts of a line are its maximal runs of digits, left to right, each
      in line `y` at the column of its first digit; every digit belongs to
      one of them. */
  lemma LinePartsAre(line: string, y: int)
    ensures var parts := LineParts(line, y);
      && (forall k | 0 <= k < |parts| ::
            parts[k].coord.y == y && parts[k].coord.x >= 0 && WellPlaced(line, Run(parts[k].coord.x, parts[k].number)))
      && (forall k, l | 0 <= k < l < |parts| :: parts[k].coord.x + |parts[k].number| < parts[l].coord.x)
      && (forall i | 0 <= i < |line| && IsDigit(line[i]) ::
            exists k | 0 <= k < |parts| :: parts[k].coord.x <= i < parts[k].coord.x + |parts[k].number|)
  {
    var runs := Runs(line);
    RunsMaximal(line);
    var parts := LineParts(line, y);
    assert forall k | 0 <= k < |parts| :: Run(parts[k].coord.x, parts[k].number) == runs[k];
    forall i | 0 <= i < |line| && IsDigit(line[i])
      ensures exists k | 0 <= k < |parts| :: parts[k].coord.x <= i < parts[k].coord.x + |parts[k].number|
    {
      var k :| 0 <= k < |runs| && runs[k].start <= i < runs[k].End();
      assert parts[k].coord.x <= i < parts[k].coord.x + |parts[k].number|;
    }
  }

  /** `parse_line`: one scan over the characters, collecting the digits of
      the current number (its column is -1 while there is none) and a point
      for every symbol. */
  method ParseLine(line: string, y: int) returns (points: seq<Point>, parts: seq<Part>)
    ensures points == SymbolPoints(line, y)
    ensures parts == LineParts(line, y)
  {
    parts, points := [], [];
    var number, start := "", -1;
    for i := 0 to |line|
      invariant points == SymbolPoints(line[..i], y)
      invariant start == -1 ==> number == [] && (i == 0 || !IsDigit(line[i - 1]))
      invariant start == -1 ==> PartsOf(Runs(line[..i]), y) == parts
      invariant start != -1 ==> ScanState(line[..i], y, parts, number, start)
    {
      var c := line[i];
      assert line[..i + 1] == line[..i] + [c];
      assert line[..i + 1][..i] == line[..i];
      if IsDigit(c) {
        if start == -1 {
          ScanStart(line[..i], c, y, parts);
          start, number := i, [c];
        } else {
          ScanExtend(line[..i], c, y, parts, number, start);
          number := number + [c];
        }
      } else {
        ScanNonDigit(line[..i], c, y);
        if c != '.' {
          points := points + [Point(i, y)];
        }
        if start != -1 {
          parts := parts + [Part(number, Point(start, y))];
          number, start := "", -1;
        }
      }
    }
    assert line[..|line|] == line;
    if start != -1 {
      parts := parts + [Part(number, Point(start, y))];
    }
  }

  /** Inside a number: the parts so far and the current one are the runs of
      the prefix scanned, and the prefix ends with a digit. */
  ghost predicate ScanState(p: string, y: int, parts: seq<Part>, number: string, start: int) {
    0 <= start && |p| > 0 && IsDigit(p[|p| - 1]) &&
    PartsOf(Runs(p), y) == parts + [Part(number, Point(start, y))]
  }

  lemma ScanStart(p: string, c: char, y: int, parts: seq<Part>)
    requires IsDigit(c) && (|p| == 0 || !IsDigit(p[|p| - 1])) && PartsOf(Runs(p), y) == parts
    ensures ScanState(p + [c], y, parts, [c], |p|)
  {
    var s := p + [c];
    assert s[..|s| - 1] == p;
    assert Runs(s) == Runs(p) + [Run(|p|, [c])];
    var a, b := PartsOf(Runs(s), y), parts + [Part([c], Point(|p|, y))];
    assert forall k | 0 <= k < |a| :: a[k] == b[k];
  }

  lemma ScanExtend(p: string, c: char, y: int, parts: seq<Part>, number: string, start: int)
    requires IsDigit(c) && ScanState(p, y, parts, number, start)
    ensures ScanState(p + [c], y, parts, number + [c], start)
  {
    var s := p + [c];
    assert s[..|s| - 1] == p;
    var prev := Runs(p);
    var last := prev[|prev| - 1];
    var parts' := PartsOf(prev, y);
    assert parts'[|prev| - 1] == Part(number, Point(start, y));
    assert last == Run(start, number);
    assert Runs(s) == prev[..|prev| - 1] + [Run(start, number + [c])];
    var a, b := PartsOf(Runs(s), y), parts + [Part(number + [c], Point(start, y))];
    forall k | 0 <= k < |a| ensures a[k] == b[k] {
      if k < |parts| {
        assert parts'[k] == parts[k];
      }
    }
  }

  lemma ScanNonDigit(p: string, c: char, y: int)
    requires !IsDigit(c)
    ensures Runs(p + [c]) == Runs(p)
    ensures SymbolPoints(p + [c], y) == SymbolPoints(p, y) + if c != '.' then [Point(|p|, y)] else []
  {
    var s := p + [c];
    assert s[..|s| - 1] == p;
  }

  // ---------------------------------------------------------------------
  // The whole schematic

  /** The points of the first `n` lines, each line at its own index. */
  function AllPoints(lines: seq<string>, n: nat): seq<Point>
    requires n <= |lines|
  {
    if n == 0 then [] else AllPoints(lines, n - 1) + SymbolPoints(lines[n - 1], n - 1)
  }

  /** The parts of the first `n` lines, each line at its own index. */
  function AllParts(lines: seq<string>, n: nat): seq<Part>
    requires n <= |lines|
  {
    if n == 0 then [] else AllParts(lines, n - 1) + LineParts(lines[n - 1], n - 1)
  }

  /** The points of the schematic are exactly its symbols, each at its line
      and column. */
  lemma {:induction false} AllPointsAre(lines: seq<string>, n: nat)
    requires n <= |lines|
    ensures forall p :: p in AllPoints(lines, n) <==>
      0 <= p.y < n && 0 <= p.x < |lines[p.y]| && IsSymbol(lines[p.y][p.x])
  {
    if n > 0 {
      AllPointsAre(lines, n - 1);
      SymbolPointsAre(lines[n - 1], n - 1);
    }
  }

  /** The parts of line `y` are listed after those of the lines before it,
      and every part lies on a line of the schematic. */
  lemma {:induction false} AllPartsLines(lines: seq<string>, n: nat)
    requires n <= |lines|
    ensures forall k | 0 <= k < |AllParts(lines, n)| :: 0 <= AllParts(lines, n)[k].coord.y < n
    ensures forall k, l | 0 <= k < l < |AllParts(lines, n)| :: AllParts(lines, n)[k].coord.y <= AllParts(lines, n)[l].coord.y
  {
    if n > 0 {
      AllPartsLines(lines, n - 1);
      var prev, line := AllParts(lines, n - 1), LineParts(lines[n - 1], n - 1);
      var all := AllParts(lines, n);
      assert all == prev + line;
      assert forall k | 0 <= k < |line| :: line[k].coord.y == n - 1;
    }
  }

  /** `get_parts_and_points`: the lines of the source, each parsed at its
      index and appended. */
  method PartsAndPoints(source: string) returns (points: seq<Point>, parts: seq<Part>)
    ensures var lines := Split(source, "\n");
      points == AllPoints(lines, |lines|) && parts == AllParts(lines, |lines|)
  {
    var lines := Split(source, "\n");
    points, parts := [], [];
    for i := 0 to |lines|
      invariant points == AllPoints(lines, i) && parts == AllParts(lines, i)
    {
      var newPoints, newParts := ParseLine(lines[i], i);
      points := points + newPoints;
      parts := parts + newParts;
    }
  }

  // ---------------------------------------------------------------------
  // Answer

  /** The contribution of one part: its value when some symbol is in range,
      otherwise 0. */
  function PartScore(part: Part, points: seq<Point>): Option<int> {
    if exists k | 0 <= k < |points| :: InRange(part, points[k]) then Value(part) else Some(0)
  }

  function SumScores(parts: seq<Part>, points: seq<Point>): Option<int> {
    if parts == [] then Some(0)
    else
      match SumScores(parts[..|parts| - 1], points)
      case None => None
      case Some(t) =>
        match PartScore(parts[|parts| - 1], points)
        case None => None
        case Some(v) => Some(t + v)
  }

  /** `exec`: part one sums the parts next to a symbol; any other part aborts. */
  function Exec(source: string, part: int): Option<int> {
    if part != 1 then None
    else
      var lines := Split(source, "\n");
      SumScores(AllParts(lines, |lines|), AllPoints(lines, |lines|))
  }

  /** Every part the parser builds is a non-empty string of digits, so part
      one never aborts on a parse. */
  lemma {:induction false} AllPartsDigits(lines: seq<string>, n: nat)
    requires n <= |lines|
    ensures forall k | 0 <= k < |AllParts(lines, n)| ::
      |AllParts(lines, n)[k].number| > 0 && AllDigits(AllParts(lines, n)[k].number)
  {
    if n > 0 {
      AllPartsDigits(lines, n - 1);
      LinePartsAre(lines[n - 1], n - 1);
    }
  }

  /** With digit parts, the sum is defined and is the sum of the values of
      the parts that touch a symbol. */
  lemma {:induction false} SumScoresDigits(parts: seq<Part>, points: seq<Point>)
    requires forall k | 0 <= k < |parts| :: |parts[k].number| > 0 && AllDigits(parts[k].number)
    ensures SumScores(parts, points).Some?
    ensures SumScores(parts, points).value >= 0
    ensures (forall k | 0 <= k < |parts| :: forall j | 0 <= j < |points| :: !InRange(parts[k], points[j])) ==>
      SumScores(parts, points) == Some(0)
  {
    if parts != [] {
      var init := parts[..|parts| - 1];
      assert forall k | 0 <= k < |init| :: init[k] == parts[k];
      SumScoresDigits(init, points);
      ValueOfDigits(parts[|parts| - 1]);
    }
  }

  /** Part one is defined on every source and is never negative. */
  lemma ExecDefined(source: string)
    ensures Exec(source, 1).Some? && Exec(source, 1).value >= 0
  {
    var lines := Split(source, "\n");
    AllPartsDigits(lines, |lines|);
    SumScoresDigits(AllParts(lines, |lines|), AllPoints(lines, |lines|));
  }

  // ---------------------------------------------------------------------
  // Examples

  /** The neighbourhood of "123" at (0, 0). */
  lemma ExampleInRange()
    ensures var part := Part("123", Point(0, 0));
      && InRange(part, Point(0, 1)) && InRange(part, Point(-1, 0)) && InRange(part, Point(3, 0))
      && InRange(part, Point(0, -1)) && InRange(part, Point(-1, -1)) && InRange(part, Point(-1, 1))
      && InRange(part, Point(3, -1)) && InRange(part, Point(3, 1))
      && !InRange(part, Point(0, 2)) && !InRange(part, Point(-2, 0)) && !InRange(part, Point(4, 0))
      && !InRange(part, Point(0, -2)) && !InRange(part, Point(-2, -1)) && !InRange(part, Point(-2, 1))
      && !InRange(part, Point(4, -1)) && !InRange(part, Point(4, 1)) && !InRange(part, Point(-1, -2))
      && !InRange(part, Point(-1, 2)) && !InRange(part, Point(3, -2)) && !InRange(part, Point(3, 2))
  {
  }

  /** "123" has the value 123. */
  lemma ExampleValue()
    ensures Value(Part("123", Point(0, 0))) == Some(123)
  {
    var s := "123";
    assert AllDigits(s);
    assert s[..2] == "12" && s[..2][..1] == "1" && s[..2][..1][..0] == "";
    assert DigitsValue("1") == 1;
    assert DigitsValue("12") == 12;
    assert DigitsValue(s) == 123;
  }

  /** "123..*" on line 0: one symbol at column 5 and the number 123 at
      column 0. */
  lemma ExampleParseLine()
    ensures SymbolPoints("123..*", 0) == [Point(5, 0)]
    ensures LineParts("123..*", 0) == [Part("123", Point(0, 0))]
  {
    ExampleRuns();
    ExampleSymbols();
  }

  lemma ExampleRuns()
    ensures Runs("123..*") == [Run(0, "123")]
  {
    var s := "123..*";
    assert s[..5] == "123.." && s[..5][..4] == "123." && s[..5][..4][..3] == "123";
    ExampleRunOfDigits();
  }

  lemma ExampleRunOfDigits()
    ensures Runs("123") == [Run(0, "123")]
  {
    assert "123"[..2] == "12" && "12"[..1] == "1" && "1"[..0] == "";
    assert Runs("1") == [Run(0, "1")];
    assert "1" + ['2'] == "12" && "12" + ['3'] == "123";
    assert [Run(0, "1")][..0] == [] && [Run(0, "12")][..0] == [];
    assert Runs("12") == [Run(0, "12")];
  }

  lemma ExampleSymbols()
    ensures SymbolPoints("123..*", 0) == [Point(5, 0)]
  {
    var s := "123..*";
    assert s[..5] == "123.." && s[..5][..4] == "123." && s[..5][..4][..3] == "123";
    assert "123"[..2] == "12" && "12"[..1] == "1" && "1"[..0] == "";
    assert SymbolPoints("123", 0) == [];
  }

  /** "123*." scores 123: the star touches the number. */
  lemma ExampleTouching()
    ensures SumScores([Part("123", Point(0, 0))], [Point(3, 0)]) == Some(123)
  {
    ExampleValue();
    var parts := [Part("123", Point(0, 0))];
    assert parts[..0] == [];
    assert InRange(parts[0], [Point(3, 0)][0]);
  }

  // ---------------------------------------------------------------------
  // Scanning the lines of the tests

  /** What `parse_line` gives for `line` at index `y`. */
  predicate Scanned(line: string, y: int, parts: seq<Part>, points: seq<Point>) {
    LineParts(line, y) == parts && SymbolPoints(line, y) == points
  }

  /** No character of `q` is a symbol. */
  predicate SymbolFree(q: string) {
    forall i | 0 <= i < |q| :: !IsSymbol(q[i])
  }

  /** Characters that are not symbols add no point. */
  lemma {:induction false} SymbolPointsAppendFree(p: string, q: string, y: int)
    requires SymbolFree(q)
    ensures SymbolPoints(p + q, y) == SymbolPoints(p, y)
    decreases |q|
  {
    if q == [] {
      assert p + q == p;
    } else {
      var q' := q[..|q| - 1];
      assert (p + q)[..|p + q| - 1] == p + q' && (p + q)[|p + q| - 1] == q[|q| - 1];
      SymbolPointsAppendFree(p, q', y);
    }
  }

  /** A symbol adds its point. */
  lemma SymbolPointsAppendSymbol(p: string, c: char, y: int)
    requires IsSymbol(c)
    ensures SymbolPoints(p + [c], y) == SymbolPoints(p, y) + [Point(|p|, y)]
  {
    assert (p + [c])[..|p|] == p;
  }

  /** A symbol followed by non-symbols adds one point. */
  lemma SymbolsThen(p: string, c: char, b: string, y: int)
    requires IsSymbol(c) && SymbolFree(b)
    ensures SymbolPoints(p + [c] + b, y) == SymbolPoints(p, y) + [Point(|p|, y)]
  {
    SymbolPointsAppendSymbol(p, c, y);
    SymbolPointsAppendFree(p + [c], b, y);
  }

  /** A line without symbols has no point. */
  lemma NoSymbols(q: string, y: int)
    requires SymbolFree(q)
    ensures SymbolPoints(q, y) == []
  {
    SymbolPointsAppendFree([], q, y);
    assert [] + q == q;
  }

  /** A source of two lines. */
  lemma LinesOfTwo(l0: string, l1: string)
    requires forall j | 0 <= j < |l0| :: l0[j] != '\n'
    requires forall j | 0 <= j < |l1| :: l1[j] != '\n'
    ensures Split(l0 + "\n" + l1, "\n") == [l0, l1]
  {
    SplitAtChar(l0, '\n', l1);
    SplitNoChar(l1, '\n');
  }

  /** A source of three lines. */
  lemma LinesOfThree(l0: string, l1: string, l2: string)
    requires forall j | 0 <= j < |l0| :: l0[j] != '\n'
    requires forall j | 0 <= j < |l1| :: l1[j] != '\n'
    requires forall j | 0 <= j < |l2| :: l2[j] != '\n'
    ensures Split(l0 + "\n" + l1 + "\n" + l2, "\n") == [l0, l1, l2]
  {
    var rest := l1 + "\n" + l2;
    assert l0 + "\n" + l1 + "\n" + l2 == l0 + "\n" + rest;
    SplitAtChar(l0, '\n', rest);
    LinesOfTwo(l1, l2);
  }

  /** Part one of a one-line source. */
  lemma ExecOne(l0: string, parts0: seq<Part>, points0: seq<Point>)
    requires forall j | 0 <= j < |l0| :: l0[j] != '\n'
    requires Scanned(l0, 0, parts0, points0)
    ensures Exec(l0, 1) == SumScores(parts0, points0)
  {
    SplitNoChar(l0, '\n');
    var lines := [l0];
    assert AllParts(lines, 1) == [] + parts0 && AllPoints(lines, 1) == [] + points0;
    assert [] + parts0 == parts0 && [] + points0 == points0;
  }

  /** The points and parts of a two-line source, and its part one. */
  lemma ExecTwo(l0: string, l1: string, parts0: seq<Part>, points0: seq<Point>, parts1: seq<Part>, points1: seq<Point>)
    requires forall j | 0 <= j < |l0| :: l0[j] != '\n'
    requires forall j | 0 <= j < |l1| :: l1[j] != '\n'
    requires Scanned(l0, 0, parts0, points0) && Scanned(l1, 1, parts1, points1)
    ensures var lines := Split(l0 + "\n" + l1, "\n");
      AllParts(lines, |lines|) == parts0 + parts1 && AllPoints(lines, |lines|) == points0 + points1
    ensures Exec(l0 + "\n" + l1, 1) == SumScores(parts0 + parts1, points0 + points1)
  {
    LinesOfTwo(l0, l1);
    var lines := [l0, l1];
    assert AllParts(lines, 1) == [] + parts0 && AllPoints(lines, 1) == [] + points0;
    assert [] + parts0 == parts0 && [] + points0 == points0;
  }

  /** Part one of a three-line source. */
  lemma ExecThree(l0: string, l1: string, l2: string, parts0: seq<Part>, points0: seq<Point>,
                  parts1: seq<Part>, points1: seq<Point>, parts2: seq<Part>, points2: seq<Point>)
    requires forall j | 0 <= j < |l0| :: l0[j] != '\n'
    requires forall j | 0 <= j < |l1| :: l1[j] != '\n'
    requires forall j | 0 <= j < |l2| :: l2[j] != '\n'
    requires Scanned(l0, 0, parts0, points0) && Scanned(l1, 1, parts1, points1) && Scanned(l2, 2, parts2, points2)
    ensures Exec(l0 + "\n" + l1 + "\n" + l2, 1) == SumScores(parts0 + parts1 + parts2, points0 + points1 + points2)
  {
    LinesOfThree(l0, l1, l2);
    var lines := [l0, l1, l2];
    assert AllParts(lines, 1) == [] + parts0 && AllPoints(lines, 1) == [] + points0;
    assert [] + parts0 == parts0 && [] + points0 == points0;
    assert AllParts(lines, 2) == parts0 + parts1 && AllPoints(lines, 2) == points0 + points1;
  }

  /** The score of one more part. */
  lemma SumScoresSnoc(parts: seq<Part>, part: Part, points: seq<Point>, t: int, v: int)
    requires SumScores(parts, points) == Some(t) && PartScore(part, points) == Some(v)
    ensures SumScores(parts + [part], points) == Some(t + v)
  {
    assert (parts + [part])[..|parts|] == parts;
  }

  /** A three-digit number's value. */
  lemma ValueOfThree(part: Part)
    requires |part.number| == 3 && AllDigits(part.number)
    ensures Value(part) == Some(100 * DigitValue(part.number[0]) + 10 * DigitValue(part.number[1]) + DigitValue(part.number[2]))
  {
    var s := part.number;
    assert s[..2][..1] == [s[0]] && s[..2][..1][..0] == [];
    assert DigitsValue(s[..2][..1]) == DigitValue(s[0]);
    assert DigitsValue(s[..2]) == 10 * DigitValue(s[0]) + DigitValue(s[1]);
  }

  /** A one-digit number's value. */
  lemma ValueOfOne(part: Part)
    requires |part.number| == 1 && AllDigits(part.number)
    ensures Value(part) == Some(DigitValue(part.number[0]))
  {
    assert part.number[..0] == [];
    assert DigitsValue(part.number) == DigitValue(part.number[0]);
  }

  // Shapes of the lines of the tests

  /** A line of non-digits and non-symbols. */
  lemma ScanBlank(a: string, y: int)
    requires NoDigits(a) && SymbolFree(a)
    ensures Scanned(a, y, [], [])
  {
    NoRuns(a);
    NoSymbols(a, y);
  }

  /** One number among dots. */
  lemma ScanNumber(a: string, d: string, b: string, y: int)
    requires NoDigits(a) && |d| > 0 && AllDigits(d) && NoDigits(b) && SymbolFree(a + d + b)
    ensures Scanned(a + d + b, y, [Part(d, Point(|a|, y))], [])
  {
    NoRuns(a);
    RunsThen(a, d, b);
    NoSymbols(a + d + b, y);
  }

  /** One symbol among dots. */
  lemma ScanSymbol(a: string, c: char, b: string, y: int)
    requires NoDigits(a + [c] + b) && SymbolFree(a) && IsSymbol(c) && SymbolFree(b)
    ensures Scanned(a + [c] + b, y, [], [Point(|a|, y)])
  {
    NoRuns(a + [c] + b);
    NoSymbols(a, y);
    SymbolsThen(a, c, b, y);
  }

  /** A number, then a symbol. */
  lemma ScanNumberSymbol(a: string, d: string, b: string, c: char, f: string, y: int)
    requires NoDigits(a) && |d| > 0 && AllDigits(d) && NoDigits(b + [c] + f)
    requires SymbolFree(a + d + b) && IsSymbol(c) && SymbolFree(f)
    ensures Scanned(a + d + b + [c] + f, y, [Part(d, Point(|a|, y))], [Point(|a| + |d| + |b|, y)])
  {
    NoRuns(a);
    RunsThen(a, d, b + [c] + f);
    assert a + d + (b + [c] + f) == a + d + b + [c] + f;
    NoSymbols(a + d + b, y);
    SymbolsThen(a + d + b, c, f, y);
  }

  /** Two numbers with a gap and no symbol. */
  lemma ScanTwoNumbers(a: string, d: string, b: string, e: string, f: string, y: int)
    requires NoDigits(a) && |d| > 0 && AllDigits(d) && |b| > 0 && NoDigits(b)
    requires |e| > 0 && AllDigits(e) && NoDigits(f) && SymbolFree(a + d + b + e + f)
    ensures Scanned(a + d + b + e + f, y, [Part(d, Point(|a|, y)), Part(e, Point(|a| + |d| + |b|, y))], [])
  {
    NoRuns(a);
    RunsThen(a, d, b);
    RunsThen(a + d + b, e, f);
    NoSymbols(a + d + b + e + f, y);
  }

  /** Two numbers around one symbol. */
  lemma ScanNumbersAroundSymbol(d: string, c: char, e: string, y: int)
    requires |d| > 0 && AllDigits(d) && IsSymbol(c) && |e| > 0 && AllDigits(e)
    ensures Scanned(d + [c] + e, y, [Part(d, Point(0, y)), Part(e, Point(|d| + 1, y))], [Point(|d|, y)])
  {
    RunsThen([], d, [c]);
    assert [] + d + [c] == d + [c];
    RunsThen(d + [c], e, []);
    assert d + [c] + e + [] == d + [c] + e;
    NoSymbols(d, y);
    SymbolsThen(d, c, e, y);
  }

  /** Two symbols among dots. */
  lemma ScanTwoSymbols(a: string, c: char, b: string, c': char, f: string, y: int)
    requires NoDigits(a + [c] + b + [c'] + f) && SymbolFree(a) && IsSymbol(c) && SymbolFree(b)
    requires IsSymbol(c') && SymbolFree(f)
    ensures Scanned(a + [c] + b + [c'] + f, y, [], [Point(|a|, y), Point(|a| + 1 + |b|, y)])
  {
    NoRuns(a + [c] + b + [c'] + f);
    NoSymbols(a, y);
    SymbolsThen(a, c, b, y);
    SymbolsThen(a + [c] + b, c', f, y);
  }

  /** A part next to one of the points scores its value. */
  lemma ScoreTouching(part: Part, points: seq<Point>, k: nat, v: int)
    requires k < |points| && InRange(part, points[k]) && Value(part) == Some(v)
    ensures PartScore(part, points) == Some(v)
  {
  }

  /** A part next to none of the points scores 0. */
  lemma ScoreAlone(part: Part, points: seq<Point>)
    requires forall k | 0 <= k < |points| :: !InRange(part, points[k])
    ensures PartScore(part, points) == Some(0)
  {
  }

  // ---------------------------------------------------------------------
  // The tests' expectations

  /** "123..456" on line 0: no symbol, and the numbers 123 at column 0 and
      456 at column 5. */
  lemma ExampleParseTwoNumbers()
    ensures SymbolPoints("123..456", 0) == []
    ensures LineParts("123..456", 0) == [Part("123", Point(0, 0)), Part("456", Point(5, 0))]
  {
    ScanTwoNumbers("", "123", "..", "456", "", 0);
    assert "" + "123" + ".." + "456" + "" == "123..456";
  }

  // The lines of the tests, scanned

  lemma Line123DotsStar(y: int)
    ensures Scanned("123...*", y, [Part("123", Point(0, y))], [Point(6, y)])
  {
    ScanNumberSymbol("", "123", "...", '*', "", y);
    assert "" + "123" + "..." + ['*'] + "" == "123...*";
  }

  lemma LineDot456DotHash(y: int)
    ensures Scanned(".456.#.", y, [Part("456", Point(1, y))], [Point(5, y)])
  {
    ScanNumberSymbol(".", "456", ".", '#', ".", y);
    assert "." + "456" + "." + ['#'] + "." == ".456.#.";
  }

  lemma Line123DotStar(y: int)
    ensures Scanned("123.*", y, [Part("123", Point(0, y))], [Point(4, y)])
  {
    ScanNumberSymbol("", "123", ".", '*', "", y);
    assert "" + "123" + "." + ['*'] + "" == "123.*";
  }

  lemma Line123StarDot(y: int)
    ensures Scanned("123*.", y, [Part("123", Point(0, y))], [Point(3, y)])
  {
    ScanNumberSymbol("", "123", "", '*', ".", y);
    assert "" + "123" + "" + ['*'] + "." == "123*.";
  }

  lemma Line123Dots(y: int)
    ensures Scanned("123..", y, [Part("123", Point(0, y))], [])
  {
    ScanNumber("", "123", "..", y);
    assert "" + "123" + ".." == "123..";
  }

  lemma LineStarDots(y: int)
    ensures Scanned("*....", y, [], [Point(0, y)])
  {
    ScanSymbol("", '*', "....", y);
    assert "" + ['*'] + "...." == "*....";
  }

  lemma LineDots(y: int)
    ensures Scanned(".....", y, [], [])
  {
    ScanBlank(".....", y);
    assert "....." == ".....";
  }

  lemma LineDotsStarDot(y: int)
    ensures Scanned("...*.", y, [], [Point(3, y)])
  {
    ScanSymbol("...", '*', ".", y);
    assert "..." + ['*'] + "." == "...*.";
  }

  lemma LineDots456(y: int)
    ensures Scanned("..456", y, [Part("456", Point(2, y))], [])
  {
    ScanNumber("..", "456", "", y);
    assert ".." + "456" + "" == "..456";
  }

  lemma LineTwoStars(y: int)
    ensures Scanned(".*.*.", y, [], [Point(1, y), Point(3, y)])
  {
    ScanTwoSymbols(".", '*', ".", '*', ".", y);
    assert "." + ['*'] + "." + ['*'] + "." == ".*.*.";
  }

  lemma LineDotsStar(y: int)
    ensures Scanned("....*", y, [], [Point(4, y)])
  {
    ScanSymbol("....", '*', "", y);
    assert "...." + ['*'] + "" == "....*";
  }

  lemma Line111(y: int)
    ensures Scanned("111", y, [Part("111", Point(0, y))], [])
  {
    ScanNumber("", "111", "", y);
    assert "" + "111" + "" == "111";
  }

  lemma Line1Dot1(y: int)
    ensures Scanned("1.1", y, [Part("1", Point(0, y)), Part("1", Point(2, y))], [])
  {
    ScanTwoNumbers("", "1", ".", "1", "", y);
    assert "" + "1" + "." + "1" + "" == "1.1";
  }

  lemma LineStarDotDot(y: int)
    ensures Scanned("*..", y, [], [Point(0, y)])
  {
    ScanSymbol("", '*', "..", y);
    assert "" + ['*'] + ".." == "*..";
  }

  lemma LineThreeDots(y: int)
    ensures Scanned("...", y, [], [])
  {
    ScanBlank("...", y);
    assert "..." == "...";
  }

  lemma Line1Star1(y: int)
    ensures Scanned("1*1", y, [Part("1", Point(0, y)), Part("1", Point(2, y))], [Point(1, y)])
  {
    ScanNumbersAroundSymbol("1", '*', "1", y);
    assert "1" + ['*'] + "1" == "1*1";
  }

  /** "*$*": three symbols. */
  lemma LineThreeSymbols(y: int)
    ensures Scanned("*$*", y, [], [Point(0, y), Point(1, y), Point(2, y)])
  {
    NoRuns("*$*");
    ScanTwoSymbols("", '*', "", '$', "", y);
    assert "" + ['*'] + "" + ['$'] + "" == "*$";
    SymbolsThen("*$", '*', "", y);
    assert "*$" + ['*'] + "" == "*$*";
  }

  /** "123...*" over ".456.#.": the symbols at (6, 0) and (5, 1), the
      numbers 123 at (0, 0) and 456 at (1, 1). */
  lemma ExampleParseLines(source: string)
    requires source == "123...*" + "\n" + ".456.#."
    ensures var lines := Split(source, "\n");
      && AllPoints(lines, |lines|) == [Point(6, 0), Point(5, 1)]
      && AllParts(lines, |lines|) == [Part("123", Point(0, 0)), Part("456", Point(1, 1))]
  {
    var a, b := Part("123", Point(0, 0)), Part("456", Point(1, 1));
    var p, q := Point(6, 0), Point(5, 1);
    assert [a] + [b] == [a, b];
    assert [p] + [q] == [p, q];
    Line123DotsStar(0);
    LineDot456DotHash(1);
    ExecTwo("123...*", ".456.#.", [a], [p], [b], [q]);
  }

  // The expectations of the part-one test

  /** The parts and symbols of the schematic of `ExampleExecSymbolTooFar`. */
  lemma SchematicSymbolTooFar(source: string)
    requires source == "123.*"
    ensures Exec(source, 1) == SumScores([Part("123", Point(0, 0))], [Point(4, 0)])
  {
    var l0 := "123.*";
    Line123DotStar(0);
    ExecOne(l0, [Part("123", Point(0, 0))], [Point(4, 0)]);
  }

  /** The sum of the parts of `ExampleExecSymbolTooFar`. */
  lemma ScoreSymbolTooFar()
    ensures SumScores([Part("123", Point(0, 0))], [Point(4, 0)]) == Some(0)
  {
    var points := [Point(4, 0)];
    ValueOfThree(Part("123", Point(0, 0)));
    ScoreAlone(Part("123", Point(0, 0)), points);
    SumScoresSnoc([], Part("123", Point(0, 0)), points, 0, 0);
  }

  /** "123.*": the star is two columns past the number, so nothing counts. */
  lemma ExampleExecSymbolTooFar(source: string)
    requires source == "123.*"
    ensures Exec(source, 1) == Some(0)
  {
    SchematicSymbolTooFar(source);
    ScoreSymbolTooFar();
  }

  /** The parts and symbols of the schematic of `ExampleExecSymbolAdjacent`. */
  lemma SchematicSymbolAdjacent(source: string)
    requires source == "123*."
    ensures Exec(source, 1) == SumScores([Part("123", Point(0, 0))], [Point(3, 0)])
  {
    var l0 := "123*.";
    Line123StarDot(0);
    ExecOne(l0, [Part("123", Point(0, 0))], [Point(3, 0)]);
  }

  /** The sum of the parts of `ExampleExecSymbolAdjacent`. */
  lemma ScoreSymbolAdjacent()
    ensures SumScores([Part("123", Point(0, 0))], [Point(3, 0)]) == Some(123)
  {
    var points := [Point(3, 0)];
    ValueOfThree(Part("123", Point(0, 0)));
    ScoreTouching(Part("123", Point(0, 0)), points, 0, 123);
    SumScoresSnoc([], Part("123", Point(0, 0)), points, 0, 123);
  }

  /** "123*.": the star touches the number. */
  lemma ExampleExecSymbolAdjacent(source: string)
    requires source == "123*."
    ensures Exec(source, 1) == Some(123)
  {
    SchematicSymbolAdjacent(source);
    ScoreSymbolAdjacent();
  }

  /** The parts and symbols of the schematic of `ExampleExecSymbolBelow`. */
  lemma SchematicSymbolBelow(source: string)
    requires source == "123.." + "\n" + "*...."
    ensures Exec(source, 1) == SumScores([Part("123", Point(0, 0))], [Point(0, 1)])
  {
    var a := Part("123", Point(0, 0));
    var p := Point(0, 1);
    assert [a] + [] == [a];
    assert [] + [p] == [p];
    Line123Dots(0);
    LineStarDots(1);
    ExecTwo("123..", "*....", [a], [], [], [p]);
  }

  /** The sum of the parts of `ExampleExecSymbolBelow`. */
  lemma ScoreSymbolBelow()
    ensures SumScores([Part("123", Point(0, 0))], [Point(0, 1)]) == Some(123)
  {
    var points := [Point(0, 1)];
    ValueOfThree(Part("123", Point(0, 0)));
    ScoreTouching(Part("123", Point(0, 0)), points, 0, 123);
    SumScoresSnoc([], Part("123", Point(0, 0)), points, 0, 123);
  }

  /** "123.." over "*....": the star is diagonally below the first digit. */
  lemma ExampleExecSymbolBelow(source: string)
    requires source == "123..\n*...."
    ensures Exec(source, 1) == Some(123)
  {
    assert source == "123.." + "\n" + "*....";
    SchematicSymbolBelow(source);
    ScoreSymbolBelow();
  }

  /** The parts and symbols of the schematic of `ExampleExecSymbolTwoBelow`. */
  lemma SchematicSymbolTwoBelow(source: string)
    requires source == "123.." + "\n" + "....." + "\n" + "*...."
    ensures Exec(source, 1) == SumScores([Part("123", Point(0, 0))], [Point(0, 2)])
  {
    var a := Part("123", Point(0, 0));
    var p := Point(0, 2);
    assert [a] + [] + [] == [a];
    assert [] + [] + [p] == [p];
    Line123Dots(0);
    LineDots(1);
    LineStarDots(2);
    ExecThree("123..", ".....", "*....", [a], [], [], [], [], [p]);
  }

  /** The sum of the parts of `ExampleExecSymbolTwoBelow`. */
  lemma ScoreSymbolTwoBelow()
    ensures SumScores([Part("123", Point(0, 0))], [Point(0, 2)]) == Some(0)
  {
    var points := [Point(0, 2)];
    ValueOfThree(Part("123", Point(0, 0)));
    ScoreAlone(Part("123", Point(0, 0)), points);
    SumScoresSnoc([], Part("123", Point(0, 0)), points, 0, 0);
  }

  /** A star two lines below the number does not count. */
  lemma ExampleExecSymbolTwoBelow(source: string)
    requires source == "123..\n.....\n*...."
    ensures Exec(source, 1) == Some(0)
  {
    assert source == "123.." + "\n" + "....." + "\n" + "*....";
    SchematicSymbolTwoBelow(source);
    ScoreSymbolTwoBelow();
  }

  /** The parts and symbols of the schematic of `ExampleExecSymbolDiagonal`. */
  lemma SchematicSymbolDiagonal(source: string)
    requires source == "123.." + "\n" + "...*." + "\n" + "....."
    ensures Exec(source, 1) == SumScores([Part("123", Point(0, 0))], [Point(3, 1)])
  {
    var a := Part("123", Point(0, 0));
    var p := Point(3, 1);
    assert [a] + [] + [] == [a];
    assert [] + [p] + [] == [p];
    Line123Dots(0);
    LineDotsStarDot(1);
    LineDots(2);
    ExecThree("123..", "...*.", ".....", [a], [], [], [p], [], []);
  }

  /** The sum of the parts of `ExampleExecSymbolDiagonal`. */
  lemma ScoreSymbolDiagonal()
    ensures SumScores([Part("123", Point(0, 0))], [Point(3, 1)]) == Some(123)
  {
    var points := [Point(3, 1)];
    ValueOfThree(Part("123", Point(0, 0)));
    ScoreTouching(Part("123", Point(0, 0)), points, 0, 123);
    SumScoresSnoc([], Part("123", Point(0, 0)), points, 0, 123);
  }

  /** A star diagonally below the last digit counts. */
  lemma ExampleExecSymbolDiagonal(source: string)
    requires source == "123..\n...*.\n....."
    ensures Exec(source, 1) == Some(123)
  {
    assert source == "123.." + "\n" + "...*." + "\n" + ".....";
    SchematicSymbolDiagonal(source);
    ScoreSymbolDiagonal();
  }

  /** The parts and symbols of the schematic of `ExampleExecSharedSymbol`. */
  lemma SchematicSharedSymbol(source: string)
    requires source == "123.." + "\n" + "...*." + "\n" + "..456"
    ensures Exec(source, 1) == SumScores([Part("123", Point(0, 0)), Part("456", Point(2, 2))], [Point(3, 1)])
  {
    var a, b := Part("123", Point(0, 0)), Part("456", Point(2, 2));
    var p := Point(3, 1);
    assert [a] + [] + [b] == [a, b];
    assert [] + [p] + [] == [p];
    Line123Dots(0);
    LineDotsStarDot(1);
    LineDots456(2);
    ExecThree("123..", "...*.", "..456", [a], [], [], [p], [b], []);
  }

  /** The sum of the parts of `ExampleExecSharedSymbol`. */
  lemma ScoreSharedSymbol()
    ensures SumScores([Part("123", Point(0, 0)), Part("456", Point(2, 2))], [Point(3, 1)]) == Some(579)
  {
    var points := [Point(3, 1)];
    ValueOfThree(Part("123", Point(0, 0)));
    ScoreTouching(Part("123", Point(0, 0)), points, 0, 123);
    SumScoresSnoc([], Part("123", Point(0, 0)), points, 0, 123);
    ValueOfThree(Part("456", Point(2, 2)));
    ScoreTouching(Part("456", Point(2, 2)), points, 0, 456);
    SumScoresSnoc([Part("123", Point(0, 0))], Part("456", Point(2, 2)), points, 123, 456);
  }

  /** One star between two numbers counts for both. */
  lemma ExampleExecSharedSymbol(source: string)
    requires source == "123..\n...*.\n..456"
    ensures Exec(source, 1) == Some(579)
  {
    assert source == "123.." + "\n" + "...*." + "\n" + "..456";
    SchematicSharedSymbol(source);
    ScoreSharedSymbol();
  }

  /** The parts and symbols of the schematic of `ExampleExecTwoSymbols`. */
  lemma SchematicTwoSymbols(source: string)
    requires source == "123.." + "\n" + ".*.*." + "\n" + "..456"
    ensures Exec(source, 1) == SumScores([Part("123", Point(0, 0)), Part("456", Point(2, 2))], [Point(1, 1), Point(3, 1)])
  {
    var a, b := Part("123", Point(0, 0)), Part("456", Point(2, 2));
    var p, q := Point(1, 1), Point(3, 1);
    assert [a] + [] + [b] == [a, b];
    assert [] + [p, q] + [] == [p, q];
    Line123Dots(0);
    LineTwoStars(1);
    LineDots456(2);
    ExecThree("123..", ".*.*.", "..456", [a], [], [], [p, q], [b], []);
  }

  /** The sum of the parts of `ExampleExecTwoSymbols`. */
  lemma ScoreTwoSymbols()
    ensures SumScores([Part("123", Point(0, 0)), Part("456", Point(2, 2))], [Point(1, 1), Point(3, 1)]) == Some(579)
  {
    var points := [Point(1, 1), Point(3, 1)];
    ValueOfThree(Part("123", Point(0, 0)));
    ScoreTouching(Part("123", Point(0, 0)), points, 0, 123);
    SumScoresSnoc([], Part("123", Point(0, 0)), points, 0, 123);
    ValueOfThree(Part("456", Point(2, 2)));
    ScoreTouching(Part("456", Point(2, 2)), points, 0, 456);
    SumScoresSnoc([Part("123", Point(0, 0))], Part("456", Point(2, 2)), points, 123, 456);
  }

  /** A number touching two stars counts once. */
  lemma ExampleExecTwoSymbols(source: string)
    requires source == "123..\n.*.*.\n..456"
    ensures Exec(source, 1) == Some(579)
  {
    assert source == "123.." + "\n" + ".*.*." + "\n" + "..456";
    SchematicTwoSymbols(source);
    ScoreTwoSymbols();
  }

  /** The parts and symbols of the schematic of `ExampleExecOneSide`. */
  lemma SchematicOneSide(source: string)
    requires source == "123.." + "\n" + "....*" + "\n" + "..456"
    ensures Exec(source, 1) == SumScores([Part("123", Point(0, 0)), Part("456", Point(2, 2))], [Point(4, 1)])
  {
    var a, b := Part("123", Point(0, 0)), Part("456", Point(2, 2));
    var p := Point(4, 1);
    assert [a] + [] + [b] == [a, b];
    assert [] + [p] + [] == [p];
    Line123Dots(0);
    LineDotsStar(1);
    LineDots456(2);
    ExecThree("123..", "....*", "..456", [a], [], [], [p], [b], []);
  }

  /** The sum of the parts of `ExampleExecOneSide`. */
  lemma ScoreOneSide()
    ensures SumScores([Part("123", Point(0, 0)), Part("456", Point(2, 2))], [Point(4, 1)]) == Some(456)
  {
    var points := [Point(4, 1)];
    ValueOfThree(Part("123", Point(0, 0)));
    ScoreAlone(Part("123", Point(0, 0)), points);
    SumScoresSnoc([], Part("123", Point(0, 0)), points, 0, 0);
    ValueOfThree(Part("456", Point(2, 2)));
    ScoreTouching(Part("456", Point(2, 2)), points, 0, 456);
    SumScoresSnoc([Part("123", Point(0, 0))], Part("456", Point(2, 2)), points, 0, 456);
  }

  /** A star out of reach of the upper number counts only for the lower one. */
  lemma ExampleExecOneSide(source: string)
    requires source == "123..\n....*\n..456"
    ensures Exec(source, 1) == Some(456)
  {
    assert source == "123.." + "\n" + "....*" + "\n" + "..456";
    SchematicOneSide(source);
    ScoreOneSide();
  }

  /** The parts and symbols of the schematic of `ExampleExecAllTouch`. */
  lemma SchematicAllTouch(source: string)
    requires source == "111" + "\n" + "*$*" + "\n" + "1.1"
    ensures Exec(source, 1) == SumScores([Part("111", Point(0, 0)), Part("1", Point(0, 2)), Part("1", Point(2, 2))], [Point(0, 1), Point(1, 1), Point(2, 1)])
  {
    var a, b, c := Part("111", Point(0, 0)), Part("1", Point(0, 2)), Part("1", Point(2, 2));
    var p, q, r := Point(0, 1), Point(1, 1), Point(2, 1);
    assert [a] + [] + [b, c] == [a, b, c];
    assert [] + [p, q, r] + [] == [p, q, r];
    Line111(0);
    LineThreeSymbols(1);
    Line1Dot1(2);
    ExecThree("111", "*$*", "1.1", [a], [], [], [p, q, r], [b, c], []);
  }

  /** The sum of the parts of `ExampleExecAllTouch`. */
  lemma ScoreAllTouch()
    ensures SumScores([Part("111", Point(0, 0)), Part("1", Point(0, 2)), Part("1", Point(2, 2))], [Point(0, 1), Point(1, 1), Point(2, 1)]) == Some(113)
  {
    var points := [Point(0, 1), Point(1, 1), Point(2, 1)];
    ValueOfThree(Part("111", Point(0, 0)));
    ScoreTouching(Part("111", Point(0, 0)), points, 0, 111);
    SumScoresSnoc([], Part("111", Point(0, 0)), points, 0, 111);
    ValueOfOne(Part("1", Point(0, 2)));
    ScoreTouching(Part("1", Point(0, 2)), points, 0, 1);
    SumScoresSnoc([Part("111", Point(0, 0))], Part("1", Point(0, 2)), points, 111, 1);
    ValueOfOne(Part("1", Point(2, 2)));
    ScoreTouching(Part("1", Point(2, 2)), points, 1, 1);
    SumScoresSnoc([Part("111", Point(0, 0)), Part("1", Point(0, 2))], Part("1", Point(2, 2)), points, 112, 1);
  }

  /** Every number touches a symbol: 111 + 1 + 1. */
  lemma ExampleExecAllTouch(source: string)
    requires source == "111\n*$*\n1.1"
    ensures Exec(source, 1) == Some(113)
  {
    assert source == "111" + "\n" + "*$*" + "\n" + "1.1";
    SchematicAllTouch(source);
    ScoreAllTouch();
  }

  /** The parts and symbols of the schematic of `ExampleExecLeftOnly`. */
  lemma SchematicLeftOnly(source: string)
    requires source == "111" + "\n" + "*.." + "\n" + "1.1"
    ensures Exec(source, 1) == SumScores([Part("111", Point(0, 0)), Part("1", Point(0, 2)), Part("1", Point(2, 2))], [Point(0, 1)])
  {
    var a, b, c := Part("111", Point(0, 0)), Part("1", Point(0, 2)), Part("1", Point(2, 2));
    var p := Point(0, 1);
    assert [a] + [] + [b, c] == [a, b, c];
    assert [] + [p] + [] == [p];
    Line111(0);
    LineStarDotDot(1);
    Line1Dot1(2);
    ExecThree("111", "*..", "1.1", [a], [], [], [p], [b, c], []);
  }

  /** The sum of the parts of `ExampleExecLeftOnly`. */
  lemma ScoreLeftOnly()
    ensures SumScores([Part("111", Point(0, 0)), Part("1", Point(0, 2)), Part("1", Point(2, 2))], [Point(0, 1)]) == Some(112)
  {
    var points := [Point(0, 1)];
    ValueOfThree(Part("111", Point(0, 0)));
    ScoreTouching(Part("111", Point(0, 0)), points, 0, 111);
    SumScoresSnoc([], Part("111", Point(0, 0)), points, 0, 111);
    ValueOfOne(Part("1", Point(0, 2)));
    ScoreTouching(Part("1", Point(0, 2)), points, 0, 1);
    SumScoresSnoc([Part("111", Point(0, 0))], Part("1", Point(0, 2)), points, 111, 1);
    ValueOfOne(Part("1", Point(2, 2)));
    ScoreAlone(Part("1", Point(2, 2)), points);
    SumScoresSnoc([Part("111", Point(0, 0)), Part("1", Point(0, 2))], Part("1", Point(2, 2)), points, 112, 0);
  }

  /** The one star reaches 111 and the left 1 only. */
  lemma ExampleExecLeftOnly(source: string)
    requires source == "111\n*..\n1.1"
    ensures Exec(source, 1) == Some(112)
  {
    assert source == "111" + "\n" + "*.." + "\n" + "1.1";
    SchematicLeftOnly(source);
    ScoreLeftOnly();
  }

  /** The parts and symbols of the schematic of `ExampleExecSameLine`. */
  lemma SchematicSameLine(source: string)
    requires source == "111" + "\n" + "..." + "\n" + "1*1"
    ensures Exec(source, 1) == SumScores([Part("111", Point(0, 0)), Part("1", Point(0, 2)), Part("1", Point(2, 2))], [Point(1, 2)])
  {
    var a, b, c := Part("111", Point(0, 0)), Part("1", Point(0, 2)), Part("1", Point(2, 2));
    var p := Point(1, 2);
    assert [a] + [] + [b, c] == [a, b, c];
    assert [] + [] + [p] == [p];
    Line111(0);
    LineThreeDots(1);
    Line1Star1(2);
    ExecThree("111", "...", "1*1", [a], [], [], [], [b, c], [p]);
  }

  /** The sum of the parts of `ExampleExecSameLine`. */
  lemma ScoreSameLine()
    ensures SumScores([Part("111", Point(0, 0)), Part("1", Point(0, 2)), Part("1", Point(2, 2))], [Point(1, 2)]) == Some(2)
  {
    var points := [Point(1, 2)];
    ValueOfThree(Part("111", Point(0, 0)));
    ScoreAlone(Part("111", Point(0, 0)), points);
    SumScoresSnoc([], Part("111", Point(0, 0)), points, 0, 0);
    ValueOfOne(Part("1", Point(0, 2)));
    ScoreTouching(Part("1", Point(0, 2)), points, 0, 1);
    SumScoresSnoc([Part("111", Point(0, 0))], Part("1", Point(0, 2)), points, 0, 1);
    ValueOfOne(Part("1", Point(2, 2)));
    ScoreTouching(Part("1", Point(2, 2)), points, 0, 1);
    SumScoresSnoc([Part("111", Point(0, 0)), Part("1", Point(0, 2))], Part("1", Point(2, 2)), points, 1, 1);
  }

  /** A star between two 1s on the last line counts for both, not for 111 two lines up. */
  lemma ExampleExecSameLine(source: string)
    requires source == "111\n...\n1*1"
    ensures Exec(source, 1) == Some(2)
  {
    assert source == "111" + "\n" + "..." + "\n" + "1*1";
    SchematicSameLine(source);
    ScoreSameLine();
  }
}
