/** Mirror lines: a pattern of ash and rocks has a vertical line of
    reflection between two columns when every row reads the same mirrored
    about it; part a looks for perfect reflections, part b for reflections
    with exactly one smudge (one mismatched pair of cells). */
module Day13 {
  import opened Common

  datatype Cell = Ash | Rock

  type Grid = seq<seq<Cell>>

  // ---------------------------------------------------------------------
  // Parsing

  function CellOf(c: char): (r: Option<Cell>)
    ensures r.Some? <==> c == '#' || c == '.'
    ensures r == Some(Rock) <==> c == '#'
    ensures r == Some(Ash) <==> c == '.'
  {
    if c == '#' then Some(Rock) else if c == '.' then Some(Ash) else None
  }

  /** `parse_line`: `None` where the source panics on a character other
      than `#` and `.`. */
  function ParseLine(line: string): (r: Option<seq<Cell>>)
    ensures r.Some? <==> forall k | 0 <= k < |line| :: line[k] == '#' || line[k] == '.'
    ensures r.Some? ==> |r.value| == |line|
    ensures r.Some? ==> forall k | 0 <= k < |line| :: (r.value[k] == Rock <==> line[k] == '#')
  {
    var cells := seq(|line|, k requires 0 <= k < |line| => CellOf(line[k]));
    assert forall k | 0 <= k < |line| :: cells[k].Some? <==> line[k] == '#' || line[k] == '.';
    AllSome(cells)
  }

  /** `parse_grid`: one row per line of the pattern; `None` when a line
      holds a character the source panics on. */
  function ParseGrid(grid: string): Option<Grid> {
    AllParsed(Split(grid, "\n"))
  }

  /** The rows of `lines`, or `None` when one of them does not parse. */
  function AllParsed(lines: seq<string>): (r: Option<Grid>)
    ensures r.Some? <==> forall k | 0 <= k < |lines| :: ParseLine(lines[k]).Some?
    ensures r.Some? ==> |r.value| == |lines| && forall k | 0 <= k < |lines| :: ParseLine(lines[k]) == Some(r.value[k])
  {
    var rows := seq(|lines|, k requires 0 <= k < |lines| => ParseLine(lines[k]));
    assert forall k | 0 <= k < |lines| :: rows[k] == ParseLine(lines[k]);
    AllSome(rows)
  }

  /** `parse_grids`: the patterns are separated by blank lines. */
  function ParseGrids(source: string): Option<seq<Grid>> {
    var blocks := Split(source, "\n\n");
    AllSome(seq(|blocks|, k requires 0 <= k < |blocks| => ParseGrid(blocks[k])))
  }

  // ---------------------------------------------------------------------
  // Mismatches of one row

  function Min(a: int, b: int): int {
    if a <= b then a else b
  }

  function Reverse<T>(s: seq<T>): (r: seq<T>)
    ensures |r| == |s| && forall k | 0 <= k < |s| :: r[k] == s[|s| - 1 - k]
  {
    if s == [] then [] else Reverse(s[1..]) + [s[0]]
  }

  /** The number of positions where two rows of the same length differ. */
  function Mismatches(a: seq<Cell>, b: seq<Cell>): nat
    requires |a| == |b|
  {
    if a == [] then 0 else (if a[0] == b[0] then 0 else 1) + Mismatches(a[1..], b[1..])
  }

  /** The number of cells on each side of the fold before cell `i` that
      face a cell on the other side. */
  function Reach(line: seq<Cell>, i: nat): (size: nat)
    requires 1 <= i < |line|
    ensures 1 <= size <= i && i + size <= |line|
  {
    Min(i, |line| - i)
  }

  /** The mismatched pairs of cells when `line` is folded between cells
      `i - 1` and `i`: the cells left of the fold zipped with the reversed
      cells right of it. */
  function Diffs(line: seq<Cell>, i: nat): nat
    requires 1 <= i < |line|
  {
    var size := Reach(line, i);
    Mismatches(line[i - size..i], Reverse(line[i..i + size]))
  }

  /** The cells read leftwards from the fold before cell `i`. */
  function Before(line: seq<Cell>, i: nat): (r: seq<Cell>)
    requires 1 <= i < |line|
    ensures |r| == Reach(line, i)
  {
    Reverse(line[i - Reach(line, i)..i])
  }

  /** The cells read rightwards from the fold before cell `i`. */
  function After(line: seq<Cell>, i: nat): (r: seq<Cell>)
    requires 1 <= i < |line|
    ensures |r| == Reach(line, i)
  {
    line[i..i + Reach(line, i)]
  }

  /** Reference: `line` reads the same both ways from the fold before cell
      `i`, as far as both sides reach. */
  predicate Mirrors(line: seq<Cell>, i: nat)
    requires 1 <= i < |line|
  {
    Before(line, i) == After(line, i)
  }

  /** Reference: read both ways from the fold, exactly one pair of cells
      differs (a smudge). */
  predicate OneSmudge(line: seq<Cell>, i: nat)
    requires 1 <= i < |line|
  {
    Differ(Before(line, i), After(line, i))
  }

  /** `a` and `b` differ at exactly one position. */
  predicate Differ(a: seq<Cell>, b: seq<Cell>)
    requires |a| == |b|
  {
    exists k | 0 <= k < |a| :: a[k] != b[k] && forall j | 0 <= j < |a| && j != k :: a[j] == b[j]
  }

  lemma {:induction false} MismatchesZero(a: seq<Cell>, b: seq<Cell>)
    requires |a| == |b|
    ensures Mismatches(a, b) == 0 <==> a == b
  {
    if a != [] {
      MismatchesZero(a[1..], b[1..]);
      if a[0] == b[0] && a[1..] == b[1..] {
        assert a == [a[0]] + a[1..] && b == [b[0]] + b[1..];
      }
    }
  }

  lemma {:induction false} MismatchesOne(a: seq<Cell>, b: seq<Cell>)
    requires |a| == |b|
    ensures Mismatches(a, b) == 1 <==> Differ(a, b)
  {
    if a != [] {
      MismatchesOne(a[1..], b[1..]);
      MismatchesZero(a[1..], b[1..]);
      if Mismatches(a, b) == 1 {
        DifferCons(a, b);
      }
      if Differ(a, b) {
        DifferUncons(a, b);
      }
    }
  }

  /** One difference overall: in the heads with equal tails, or equal heads
      with one difference in the tails. */
  lemma DifferCons(a: seq<Cell>, b: seq<Cell>)
    requires |a| == |b| && a != []
    requires if a[0] == b[0] then Differ(a[1..], b[1..]) else a[1..] == b[1..]
    ensures Differ(a, b)
  {
    var a', b' := a[1..], b[1..];
    if a[0] == b[0] {
      var k :| 0 <= k < |a'| && a'[k] != b'[k] && forall j | 0 <= j < |a'| && j != k :: a'[j] == b'[j];
      assert a[k + 1] != b[k + 1];
      forall j | 0 <= j < |a| && j != k + 1 ensures a[j] == b[j] {
        if j > 0 {
          assert a'[j - 1] == b'[j - 1];
        }
      }
    } else {
      forall j | 0 <= j < |a| && j != 0 ensures a[j] == b[j] {
        assert a'[j - 1] == b'[j - 1];
      }
    }
  }

  lemma DifferUncons(a: seq<Cell>, b: seq<Cell>)
    requires |a| == |b| && a != [] && Differ(a, b)
    ensures if a[0] == b[0] then Differ(a[1..], b[1..]) else a[1..] == b[1..]
  {
    var a', b' := a[1..], b[1..];
    var k :| 0 <= k < |a| && a[k] != b[k] && forall j | 0 <= j < |a| && j != k :: a[j] == b[j];
    if k == 0 {
      assert a' == b' by {
        forall j | 0 <= j < |a'| ensures a'[j] == b'[j] {
          assert a[j + 1] == b[j + 1];
        }
      }
    } else {
      assert a[0] == b[0];
      assert Differ(a', b') by {
        forall j | 0 <= j < |a'| && j != k - 1 ensures a'[j] == b'[j] {
          assert a[j + 1] == b[j + 1];
        }
        assert a'[k - 1] != b'[k - 1];
      }
    }
  }

  lemma {:induction false} MismatchesConcat(a: seq<Cell>, a': seq<Cell>, b: seq<Cell>, b': seq<Cell>)
    requires |a| == |b| && |a'| == |b'|
    ensures Mismatches(a + a', b + b') == Mismatches(a, b) + Mismatches(a', b')
  {
    if a == [] {
      assert a + a' == a' && b + b' == b';
    } else {
      assert (a + a')[1..] == a[1..] + a' && (b + b')[1..] == b[1..] + b';
      MismatchesConcat(a[1..], a', b[1..], b');
    }
  }

  /** Reading both rows backwards finds the same mismatches. */
  lemma {:induction false} MismatchesReverse(a: seq<Cell>, b: seq<Cell>)
    requires |a| == |b|
    ensures Mismatches(Reverse(a), Reverse(b)) == Mismatches(a, b)
  {
    if a != [] {
      MismatchesReverse(a[1..], b[1..]);
      MismatchesConcat(Reverse(a[1..]), [a[0]], Reverse(b[1..]), [b[0]]);
    }
  }

  lemma ReverseTwice(s: seq<Cell>)
    ensures Reverse(Reverse(s)) == s
  {
  }

  /** The mismatches the source counts are those between the two sides
      read away from the fold. */
  lemma DiffsBeforeAfter(line: seq<Cell>, i: nat)
    requires 1 <= i < |line|
    ensures Diffs(line, i) == Mismatches(Before(line, i), After(line, i))
  {
    var size := Reach(line, i);
    var left, right := line[i - size..i], line[i..i + size];
    MismatchesReverse(left, Reverse(right));
    ReverseTwice(right);
  }

  /** A row has no mismatches at a fold exactly when it mirrors there. */
  lemma DiffsZero(line: seq<Cell>, i: nat)
    requires 1 <= i < |line|
    ensures Diffs(line, i) == 0 <==> Mirrors(line, i)
  {
    DiffsBeforeAfter(line, i);
    MismatchesZero(Before(line, i), After(line, i));
  }

  /** A row has one mismatch at a fold exactly when it has one smudge there. */
  lemma DiffsOne(line: seq<Cell>, i: nat)
    requires 1 <= i < |line|
    ensures Diffs(line, i) == 1 <==> OneSmudge(line, i)
  {
    DiffsBeforeAfter(line, i);
    MismatchesOne(Before(line, i), After(line, i));
  }

  /** `find_symmetry_lines`: the mismatches at every fold of a row, keyed
      by the fold; fold 0 has nothing on its left and is skipped. */
  method FindSymmetryLines(line: seq<Cell>) returns (result: map<nat, nat>)
    ensures forall i: nat :: i in result <==> 1 <= i < |line|
    ensures forall i: nat | i in result :: 1 <= i < |line| && result[i] == Diffs(line, i)
  {
    result := map[];
    for i := 0 to |line|
      invariant forall j: nat :: j in result <==> 1 <= j < i
      invariant forall j: nat | j in result :: 1 <= j < |line| && result[j] == Diffs(line, j)
    {
      var size := Min(i, |line| - i);
      if size == 0 {
        continue;
      }
      var left := line[i - size..i];
      var right := line[i..i + size];
      result := result[i := Mismatches(left, Reverse(right))];
    }
  }

  // ---------------------------------------------------------------------
  // Totals over a pattern

  /** The length of the longest row. */
  function Width(grid: Grid): (w: nat)
    ensures forall k | 0 <= k < |grid| :: |grid[k]| <= w
    ensures grid != [] ==> exists k | 0 <= k < |grid| :: |grid[k]| == w
  {
    if grid == [] then 0
    else
      var w := Width(grid[..|grid| - 1]);
      assert forall k | 0 <= k < |grid| - 1 :: grid[..|grid| - 1][k] == grid[k];
      if |grid[|grid| - 1]| > w then |grid[|grid| - 1]| else w
  }

  /** The mismatches at fold `i` summed over the rows that reach it. */
  function Total(grid: Grid, i: nat): nat {
    if grid == [] then 0
    else
      var row := grid[|grid| - 1];
      Total(grid[..|grid| - 1], i) + (if 1 <= i < |row| then Diffs(row, i) else 0)
  }

  /** A pattern has no mismatches at a fold exactly when every row reaching
      it mirrors there. */
  lemma {:induction false} TotalZero(grid: Grid, i: nat)
    ensures Total(grid, i) == 0 <==> forall k | 0 <= k < |grid| && 1 <= i < |grid[k]| :: Mirrors(grid[k], i)
  {
    if grid != [] {
      var n := |grid| - 1;
      TotalZero(grid[..n], i);
      assert forall k | 0 <= k < n :: grid[..n][k] == grid[k];
      if 1 <= i < |grid[n]| {
        DiffsZero(grid[n], i);
      }
    }
  }

  /** Row `k` has the one smudge at fold `i` and every other row reaching
      the fold mirrors there. */
  predicate SmudgedAt(grid: Grid, i: nat, k: nat) {
    && k < |grid| && 1 <= i < |grid[k]| && OneSmudge(grid[k], i)
    && forall j | 0 <= j < |grid| && j != k && 1 <= i < |grid[j]| :: Mirrors(grid[j], i)
  }

  lemma TotalSnoc(rows: Grid, row: seq<Cell>, i: nat)
    ensures Total(rows + [row], i) == Total(rows, i) + (if 1 <= i < |row| then Diffs(row, i) else 0)
  {
    assert (rows + [row])[..|rows|] == rows;
  }

  /** A pattern has one mismatch at a fold exactly when one row has one
      smudge there and every other row reaching it mirrors there. */
  lemma {:induction false} TotalOne(grid: Grid, i: nat)
    ensures Total(grid, i) == 1 <==> exists k :: SmudgedAt(grid, i, k)
  {
    if grid != [] {
      var n := |grid| - 1;
      var front, row := grid[..n], grid[n];
      assert grid == front + [row];
      TotalOne(front, i);
      TotalZero(front, i);
      if 1 <= i < |row| {
        TotalOneReaching(front, row, i);
      } else {
        TotalOneShort(front, row, i);
      }
    }
  }

  /** The step of `TotalOne` for a last row that reaches the fold. */
  lemma TotalOneReaching(front: Grid, row: seq<Cell>, i: nat)
    requires 1 <= i < |row|
    requires Total(front, i) == 1 <==> exists k :: SmudgedAt(front, i, k)
    requires Total(front, i) == 0 <==> forall k | 0 <= k < |front| && 1 <= i < |front[k]| :: Mirrors(front[k], i)
    ensures Total(front + [row], i) == 1 <==> exists k :: SmudgedAt(front + [row], i, k)
  {
    TotalSnoc(front, row, i);
    DiffsZero(row, i);
    DiffsOne(row, i);
    if Total(front + [row], i) == 1 {
      SmudgeFound(front, row, i);
    }
    if exists k :: SmudgedAt(front + [row], i, k) {
      var k :| SmudgedAt(front + [row], i, k);
      SmudgeCounted(front, row, i, k);
    }
  }

  lemma SmudgeFound(front: Grid, row: seq<Cell>, i: nat)
    requires 1 <= i < |row|
    requires Total(front, i) == 1 ==> exists k :: SmudgedAt(front, i, k)
    requires Total(front, i) == 0 ==> forall k | 0 <= k < |front| && 1 <= i < |front[k]| :: Mirrors(front[k], i)
    requires Diffs(row, i) == 0 <==> Mirrors(row, i)
    requires Diffs(row, i) == 1 <==> OneSmudge(row, i)
    requires Total(front, i) + Diffs(row, i) == 1
    ensures exists k :: SmudgedAt(front + [row], i, k)
  {
    var grid, n := front + [row], |front|;
    assert forall k | 0 <= k < n :: grid[k] == front[k];
    if Diffs(row, i) == 0 {
      var k :| SmudgedAt(front, i, k);
      assert SmudgedAt(grid, i, k);
    } else {
      assert SmudgedAt(grid, i, n);
    }
  }

  lemma SmudgeCounted(front: Grid, row: seq<Cell>, i: nat, k: nat)
    requires 1 <= i < |row| && SmudgedAt(front + [row], i, k)
    requires (exists k :: SmudgedAt(front, i, k)) ==> Total(front, i) == 1
    requires (forall k | 0 <= k < |front| && 1 <= i < |front[k]| :: Mirrors(front[k], i)) ==> Total(front, i) == 0
    requires Diffs(row, i) == 0 <==> Mirrors(row, i)
    requires Diffs(row, i) == 1 <==> OneSmudge(row, i)
    ensures Total(front, i) + Diffs(row, i) == 1
  {
    if k == |front| {
      SmudgeInLast(front, row, i);
    } else {
      SmudgeInFront(front, row, i, k);
    }
  }

  lemma SmudgeInLast(front: Grid, row: seq<Cell>, i: nat)
    requires 1 <= i < |row| && SmudgedAt(front + [row], i, |front|)
    ensures OneSmudge(row, i)
    ensures forall j | 0 <= j < |front| && 1 <= i < |front[j]| :: Mirrors(front[j], i)
  {
    var grid := front + [row];
    forall j | 0 <= j < |front| && 1 <= i < |front[j]| ensures Mirrors(front[j], i) {
      assert grid[j] == front[j];
    }
  }

  lemma SmudgeInFront(front: Grid, row: seq<Cell>, i: nat, k: nat)
    requires 1 <= i < |row| && k < |front| && SmudgedAt(front + [row], i, k)
    ensures SmudgedAt(front, i, k) && Mirrors(row, i)
  {
    var grid, n := front + [row], |front|;
    assert forall j | 0 <= j < n :: grid[j] == front[j];
    assert grid[n] == row;
  }

  /** The step of `TotalOne` for a last row too short for the fold. */
  lemma TotalOneShort(front: Grid, row: seq<Cell>, i: nat)
    requires !(1 <= i < |row|)
    requires Total(front, i) == 1 <==> exists k :: SmudgedAt(front, i, k)
    ensures Total(front + [row], i) == 1 <==> exists k :: SmudgedAt(front + [row], i, k)
  {
    var grid, n := front + [row], |front|;
    TotalSnoc(front, row, i);
    assert forall k | 0 <= k < n :: grid[k] == front[k];
    if exists k :: SmudgedAt(grid, i, k) {
      var k :| SmudgedAt(grid, i, k);
      assert SmudgedAt(front, i, k);
    }
    if Total(grid, i) == 1 {
      var k :| SmudgedAt(front, i, k);
      assert SmudgedAt(grid, i, k);
    }
  }

  lemma {:induction false} TotalBeyond(grid: Grid, i: nat)
    requires i >= Width(grid)
    ensures Total(grid, i) == 0
  {
    if grid != [] {
      TotalBeyond(grid[..|grid| - 1], i);
    }
  }

  /** What `find_symmetry_line` may report for one total: some fold with
      that total, or `None` when no fold has it. Which fold is reported
      when several qualify depends on the order a hash map hands out its
      keys, which nothing fixes. */
  predicate Reported(grid: Grid, found: Option<nat>, total: nat) {
    && (found.None? ==> forall i | 1 <= i < Width(grid) :: Total(grid, i) != total)
    && (found.Some? ==> 1 <= found.value < Width(grid) && Total(grid, found.value) == total)
  }

  /** `find_symmetry_line`: the mismatches of every row added up per fold,
      then a fold with total 0 (perfect) and one with total 1 (smudged). */
  method FindSymmetryLine(grid: Grid) returns (zero: Option<nat>, one: Option<nat>)
    ensures Reported(grid, zero, 0) && Reported(grid, one, 1)
  {
    var result := FoldTotals(grid);
    zero, one := None, None;
    var keys := result.Keys;
    while keys != {}
      invariant keys <= result.Keys
      invariant zero.Some? ==> zero.value in result && result[zero.value] == 0
      invariant zero.None? ==> forall i | i in result && i !in keys :: result[i] != 0
      invariant one.Some? ==> one.value in result && result[one.value] == 1
      invariant one.None? ==> forall i | i in result && i !in keys :: result[i] != 1
      decreases keys
    {
      var i :| i in keys;
      if result[i] == 0 {
        zero := Some(i);
      } else if result[i] == 1 {
        one := Some(i);
      }
      keys := keys - {i};
    }
  }

  /** The first loop of `find_symmetry_line`: every fold of the pattern
      mapped to its total. */
  method FoldTotals(grid: Grid) returns (result: map<nat, nat>)
    ensures forall i: nat :: i in result <==> 1 <= i < Width(grid)
    ensures forall i: nat | i in result :: result[i] == Total(grid, i)
  {
    result := map[];
    for r := 0 to |grid|
      invariant forall i: nat :: i in result <==> 1 <= i < Width(grid[..r])
      invariant forall i: nat | i in result :: result[i] == Total(grid[..r], i)
    {
      var lineDiffs := FindSymmetryLines(grid[r]);
      result := AddTotals(grid[..r], grid[r], result, lineDiffs);
      assert grid[..r + 1] == grid[..r] + [grid[r]];
    }
    assert grid[..|grid|] == grid;
  }

  /** The inner loop of `find_symmetry_line`: one row's mismatches added to
      the running totals, in whatever order the row's map hands them out. */
  method AddTotals(rows: Grid, row: seq<Cell>, totals: map<nat, nat>, lineDiffs: map<nat, nat>) returns (result: map<nat, nat>)
    requires forall i: nat :: i in totals <==> 1 <= i < Width(rows)
    requires forall i: nat | i in totals :: totals[i] == Total(rows, i)
    requires forall i: nat :: i in lineDiffs <==> 1 <= i < |row|
    requires forall i: nat | i in lineDiffs :: 1 <= i < |row| && lineDiffs[i] == Diffs(row, i)
    ensures forall i: nat :: i in result <==> 1 <= i < Width(rows + [row])
    ensures forall i: nat | i in result :: result[i] == Total(rows + [row], i)
  {
    result := totals;
    var keys := lineDiffs.Keys;
    while keys != {}
      invariant keys <= lineDiffs.Keys
      invariant PartialTotals(rows, lineDiffs, keys, result)
      decreases keys
    {
      var i :| i in keys;
      var added := if i in result then result[i] + lineDiffs[i] else lineDiffs[i];
      PartialTotalsStep(rows, lineDiffs, keys, result, i);
      result := result[i := added];
      keys := keys - {i};
    }
    WidthSnoc(rows, row);
    forall i: nat | i in result ensures result[i] == Total(rows + [row], i) {
      TotalSnoc(rows, row, i);
    }
  }

  /** The running totals once the folds outside `keys` of a row's
      mismatches have been added. */
  ghost predicate PartialTotals(rows: Grid, lineDiffs: map<nat, nat>, keys: set<nat>, result: map<nat, nat>) {
    && (forall i: nat :: i in result <==> 1 <= i < Width(rows) || (i in lineDiffs && i !in keys))
    && (forall i: nat | i in result ::
          result[i] == Total(rows, i) + (if i in lineDiffs && i !in keys then lineDiffs[i] else 0))
  }

  lemma PartialTotalsStep(rows: Grid, lineDiffs: map<nat, nat>, keys: set<nat>, result: map<nat, nat>, i: nat)
    requires PartialTotals(rows, lineDiffs, keys, result) && i in keys && i in lineDiffs && i >= 1
    ensures PartialTotals(rows, lineDiffs, keys - {i},
      result[i := if i in result then result[i] + lineDiffs[i] else lineDiffs[i]])
  {
    if i !in result {
      TotalBeyond(rows, i);
    }
  }

  lemma WidthSnoc(rows: Grid, row: seq<Cell>)
    ensures Width(rows + [row]) == if |row| > Width(rows) then |row| else Width(rows)
  {
    assert (rows + [row])[..|rows|] == rows;
  }

  // ---------------------------------------------------------------------
  // Transpose

  /** `transpose`: as many rows as the first row has cells, row `j` the
      column `j`; `None` where the source panics, on an empty matrix or a
      row longer than the first. */
  function TransposeOf<T>(matrix: seq<seq<T>>): Option<seq<seq<T>>> {
    if matrix == [] || exists k | 0 <= k < |matrix| :: |matrix[k]| > |matrix[0]| then None
    else Some(seq(|matrix[0]|, j requires 0 <= j < |matrix[0]| => Column(matrix, j)))
  }

  predicate Rectangular<T>(matrix: seq<seq<T>>) {
    matrix != [] && forall k | 0 <= k < |matrix| :: |matrix[k]| == |matrix[0]|
  }

  /** The transpose of a rectangle swaps its indices. */
  lemma TransposeRectangle<T>(matrix: seq<seq<T>>)
    requires Rectangular(matrix)
    ensures TransposeOf(matrix).Some?
    ensures var t := TransposeOf(matrix).value;
      |t| == |matrix[0]| &&
      forall j | 0 <= j < |t| :: |t[j]| == |matrix| && forall i | 0 <= i < |matrix| :: t[j][i] == matrix[i][j]
  {
    forall j | 0 <= j < |matrix[0]| ensures |Column(matrix, j)| == |matrix| &&
      forall i | 0 <= i < |matrix| :: Column(matrix, j)[i] == matrix[i][j] {
      ColumnOfRectangle(matrix, |matrix[0]|, j);
    }
  }

  /** Transposing a rectangle with at least one column twice gives it back. */
  lemma TransposeTwice<T>(matrix: seq<seq<T>>)
    requires Rectangular(matrix) && |matrix[0]| > 0
    ensures TransposeOf(matrix).Some? && TransposeOf(TransposeOf(matrix).value) == Some(matrix)
  {
    TransposeRectangle(matrix);
    var t := TransposeOf(matrix).value;
    assert Rectangular(t);
    TransposeRectangle(t);
    var tt := TransposeOf(t).value;
    assert |tt| == |matrix|;
    forall i | 0 <= i < |matrix| ensures tt[i] == matrix[i] {
      assert |tt[i]| == |matrix[i]|;
      forall j | 0 <= j < |matrix[i]| ensures tt[i][j] == matrix[i][j] {
        assert tt[i][j] == t[j][i];
      }
    }
    assert tt == matrix;
  }

  /** `transpose`, pushing every cell onto the row of its column. */
  method Transpose<T>(matrix: seq<seq<T>>) returns (r: Option<seq<seq<T>>>)
    ensures r == TransposeOf(matrix)
  {
    if matrix == [] {
      return None;
    }
    var transposed: seq<seq<T>> := seq(|matrix[0]|, j => []);
    for k := 0 to |matrix|
      invariant |transposed| == |matrix[0]|
      invariant forall j | 0 <= j < |transposed| :: transposed[j] == Column(matrix[..k], j)
      invariant forall i | 0 <= i < k :: |matrix[i]| <= |matrix[0]|
    {
      var row := matrix[k];
      assert matrix[..k + 1][..k] == matrix[..k];
      for index := 0 to |row|
        invariant |transposed| == |matrix[0]|
        invariant index <= |transposed|
        invariant forall j | 0 <= j < index :: transposed[j] == Column(matrix[..k + 1], j)
        invariant forall j | index <= j < |transposed| :: transposed[j] == Column(matrix[..k], j)
      {
        if index >= |transposed| {
          return None;
        }
        transposed := transposed[index := transposed[index] + [row[index]]];
      }
    }
    assert matrix[..|matrix|] == matrix;
    assert transposed == seq(|matrix[0]|, j requires 0 <= j < |matrix[0]| => Column(matrix, j));
    return Some(transposed);
  }

  // ---------------------------------------------------------------------
  // Both orientations

  datatype Report = Report(columns: (Option<nat>, Option<nat>), rows: (Option<nat>, Option<nat>))

  /** What the fold search may report for a pattern: the folds between
      columns, and those between rows (the folds of the transpose). */
  predicate Reports(grid: Grid, report: Report)
    requires TransposeOf(grid).Some?
  {
    && Reported(grid, report.columns.0, 0) && Reported(grid, report.columns.1, 1)
    && Reported(TransposeOf(grid).value, report.rows.0, 0) && Reported(TransposeOf(grid).value, report.rows.1, 1)
  }

  /** `find_rotating_symmetry_line`: the perfect and the smudged fold, each
      found either between columns (kept as it is) or between rows (times
      100); `None` on any other combination, where the source panics. */
  function Rotating(report: Report): Option<(nat, nat)> {
    match report
    case Report((Some(a), Some(b)), (None, None)) => Some((a, b))
    case Report((Some(a), None), (None, Some(b))) => Some((a, b * 100))
    case Report((None, Some(b)), (Some(a), None)) => Some((a * 100, b))
    case Report((None, None), (Some(a), Some(b))) => Some((a * 100, b * 100))
    case _ => None
  }

  /** Each answer comes from exactly one orientation: a report is accepted
      exactly when the perfect fold is found in one orientation only and so
      is the smudged one. */
  lemma RotatingAccepts(report: Report)
    ensures Rotating(report).Some? <==>
      (report.columns.0.Some? != report.rows.0.Some?) && (report.columns.1.Some? != report.rows.1.Some?)
    ensures Rotating(report).Some? ==>
      && Rotating(report).value.0 == (if report.columns.0.Some? then report.columns.0.value else 100 * report.rows.0.value)
      && Rotating(report).value.1 == (if report.columns.1.Some? then report.columns.1.value else 100 * report.rows.1.value)
  {
  }

  method FindRotatingSymmetryLine(grid: Grid) returns (r: Option<(nat, nat)>, ghost report: Report)
    ensures TransposeOf(grid).None? ==> r.None?
    ensures TransposeOf(grid).Some? ==> Reports(grid, report) && r == Rotating(report)
  {
    var zero, one := FindSymmetryLine(grid);
    var transposed := Transpose(grid);
    if transposed.None? {
      return None, Report((zero, one), (None, None));
    }
    var zero', one' := FindSymmetryLine(transposed.value);
    report := Report((zero, one), (zero', one'));
    r := match (zero, one, zero', one')
      case (Some(a), Some(b), None, None) => Some((a, b))
      case (Some(a), None, None, Some(b)) => Some((a, b * 100))
      case (None, Some(b), Some(a), None) => Some((a * 100, b))
      case (None, None, Some(a), Some(b)) => Some((a * 100, b * 100))
      case _ => None;
  }

  // ---------------------------------------------------------------------
  // Exec

  /** Both sums over the answers of the reports; `None` when one of them
      is rejected. */
  function Totals(reports: seq<Report>): Option<(nat, nat)> {
    if reports == [] then Some((0, 0))
    else
      match (Totals(reports[..|reports| - 1]), Rotating(reports[|reports| - 1]))
      case (Some((a, b)), Some((x, y))) => Some((a + x, b + y))
      case _ => None
  }

  /** The pattern can be rotated, and the report is one the fold search
      may give for it. */
  predicate Accepted(grid: Grid, report: Report) {
    TransposeOf(grid).Some? && Reports(grid, report)
  }

  /** The `k`-th report was chosen for the `k`-th pattern. */
  predicate AcceptedAt(grids: seq<Grid>, reports: seq<Report>, k: nat)
    requires k < |reports| <= |grids|
  {
    Accepted(grids[k], reports[k])
  }

  /** Each of the first `|reports|` patterns can be rotated, and its
      report is one the fold search may give for it. */
  predicate Chosen(grids: seq<Grid>, reports: seq<Report>) {
    |reports| <= |grids| && forall k: nat | k < |reports| :: AcceptedAt(grids, reports, k)
  }

  lemma ChosenSnoc(grids: seq<Grid>, reports: seq<Report>, report: Report)
    requires Chosen(grids, reports) && |reports| < |grids|
    requires Accepted(grids[|reports|], report)
    ensures Chosen(grids, reports + [report])
  {
    forall k: nat | k < |reports| + 1 ensures AcceptedAt(grids, reports + [report], k) {
      if k < |reports| {
        assert AcceptedAt(grids, reports, k);
      }
    }
  }

  lemma TotalsSnoc(reports: seq<Report>, report: Report, a: nat, b: nat)
    requires Totals(reports).Some?
    ensures Rotating(report).None? ==> Totals(reports + [report]).None?
    ensures Totals(reports) == Some((a, b)) && Rotating(report).Some? ==>
      Totals(reports + [report]) == Some((a + Rotating(report).value.0, b + Rotating(report).value.1))
  {
    assert (reports + [report])[..|reports|] == reports;
  }

  /** What the summing loop promises about the reports it chose. */
  predicate Summed(grids: seq<Grid>, r: Option<(nat, nat)>, reports: seq<Report>) {
    && Chosen(grids, reports)
    && (r.Some? ==> |reports| == |grids| && r == Totals(reports))
    && (r.None? ==> Totals(reports).None? || (|reports| < |grids| && TransposeOf(grids[|reports|]).None?))
  }

  /** One more pattern taken by the summing loop: its report is chosen, and
      either its answer is added to both sums or the run stops there. */
  lemma SummedStep(grids: seq<Grid>, reports: seq<Report>, report: Report, a: nat, b: nat)
    requires |reports| < |grids| && Chosen(grids, reports) && Totals(reports) == Some((a, b))
    requires TransposeOf(grids[|reports|]).Some? && Reports(grids[|reports|], report)
    ensures Chosen(grids, reports + [report])
    ensures Rotating(report).None? ==> Summed(grids, None, reports + [report])
  {
    ChosenSnoc(grids, reports, report);
    TotalsSnoc(reports, report, a, b);
  }

  /** The body of the summing loop: the next pattern's answer added to
      the sums, or `None` where the source panics on that pattern. */
  method AddGrid(grids: seq<Grid>, k: nat, ghost reports: seq<Report>, a: nat, b: nat)
    returns (r: Option<(nat, nat)>, ghost reports': seq<Report>)
    requires k == |reports| < |grids| && Chosen(grids, reports) && Totals(reports) == Some((a, b))
    ensures r.None? ==> Summed(grids, None, reports')
    ensures r.Some? ==> |reports'| == |reports| + 1 && reports'[..|reports|] == reports && Totals(reports') == r && Chosen(grids, reports')
  {
    var answer, report := FindRotatingSymmetryLine(grids[k]);
    if TransposeOf(grids[k]).None? {
      return None, reports;
    }
    SummedStep(grids, reports, report, a, b);
    reports' := reports + [report];
    if answer.None? {
      return None, reports';
    }
    r := Some((a + answer.value.0, b + answer.value.1));
    TotalsSnoc(reports, report, a, b);
  }

  /** The loop of `exec`: every pattern's answer added up, stopping at the
      first pattern the source panics on. */
  method SumGrids(grids: seq<Grid>) returns (r: Option<(nat, nat)>, ghost reports: seq<Report>)
    ensures Summed(grids, r, reports)
  {
    reports := [];
    var partA: nat, partB: nat := 0, 0;
    for k := 0 to |grids|
      invariant |reports| == k
      invariant Chosen(grids, reports)
      invariant Totals(reports) == Some((partA, partB))
    {
      var sums;
      sums, reports := AddGrid(grids, k, reports, partA, partB);
      if sums.None? {
        return None, reports;
      }
      partA, partB := sums.value.0, sums.value.1;
    }
    r := Some((partA, partB));
  }

  /** `exec`: the answers of every pattern added up. The reports chosen
      for the patterns come back as a ghost result. */
  method Exec(source: string) returns (r: Option<(nat, nat)>, ghost reports: seq<Report>)
    ensures ParseGrids(source).None? ==> r.None?
    ensures ParseGrids(source).Some? ==> Summed(ParseGrids(source).value, r, reports)
  {
    var parsed := ParseGrids(source);
    if parsed.None? {
      return None, [];
    }
    r, reports := SumGrids(parsed.value);
  }

  // ---------------------------------------------------------------------
  // Examples

  /** The row `#....#` mirrors at the fold before its fourth cell. */
  lemma ExampleSymmetryFinder()
    ensures ParseLine("#....#") == Some([Rock, Ash, Ash, Ash, Ash, Rock])
    ensures Diffs([Rock, Ash, Ash, Ash, Ash, Rock], 3) == 0
  {
    var cells := [Rock, Ash, Ash, Ash, Ash, Rock];
    var r := ParseLine("#....#");
    assert r.Some?;
    assert r.value == cells;
    assert Before(cells, 3) == [Ash, Ash, Rock];
    DiffsZero(cells, 3);
  }

  /** The seven-row pattern of the source's own test for
      `find_symmetry_line`. */
  function SamplePattern(): Grid {
    [
      [Rock, Ash, Rock, Rock, Ash, Ash, Rock, Rock, Ash],
      [Ash, Ash, Rock, Ash, Rock, Rock, Ash, Rock, Ash],
      [Rock, Rock, Ash, Ash, Ash, Ash, Ash, Ash, Rock],
      [Rock, Rock, Ash, Ash, Ash, Ash, Ash, Ash, Rock],
      [Ash, Ash, Rock, Ash, Rock, Rock, Ash, Rock, Ash],
      [Ash, Ash, Rock, Rock, Ash, Ash, Rock, Rock, Ash],
      [Rock, Ash, Rock, Ash, Rock, Rock, Ash, Rock, Ash]]
  }

  /** Its rows all mirror at the fold before the sixth column. */
  lemma SampleRowsMirror()
    ensures forall k | 0 <= k < |SamplePattern()| :: |SamplePattern()[k]| == 9 && Mirrors(SamplePattern()[k], 5)
  {
    var grid := SamplePattern();
    forall k | 0 <= k < |grid| ensures |grid[k]| == 9 && Mirrors(grid[k], 5) {
      FoldBeforeSixth(grid[k]);
    }
  }

  lemma FoldBeforeSixth(row: seq<Cell>)
    requires |row| == 9 && row[4] == row[5] && row[3] == row[6] && row[2] == row[7] && row[1] == row[8]
    ensures Mirrors(row, 5)
  {
    assert Before(row, 5) == After(row, 5);
  }

  /** A fold where every row, all of one width, mirrors is one the search
      may report as perfect. */
  lemma PerfectFold(grid: Grid, i: nat, w: nat)
    requires grid != [] && 1 <= i < w
    requires forall k | 0 <= k < |grid| :: |grid[k]| == w && Mirrors(grid[k], i)
    ensures Reported(grid, Some(i), 0)
  {
    TotalZero(grid, i);
  }

  /** A row does not mirror at a fold where one pair of facing cells differs. */
  lemma Unmirrored(row: seq<Cell>, i: nat, j: nat)
    requires 1 <= i < |row| && j < Reach(row, i) && row[i - 1 - j] != row[i + j]
    ensures !Mirrors(row, i)
  {
    assert Before(row, i)[j] == row[i - 1 - j];
  }

  /** Two rows that do not mirror at a fold leave it neither perfect nor
      smudged. */
  lemma TwoUnmirrored(grid: Grid, i: nat, k1: nat, k2: nat)
    requires k1 < |grid| && k2 < |grid| && k1 != k2
    requires 1 <= i < |grid[k1]| && !Mirrors(grid[k1], i)
    requires 1 <= i < |grid[k2]| && !Mirrors(grid[k2], i)
    ensures Total(grid, i) != 0 && Total(grid, i) != 1
  {
    TotalZero(grid, i);
    TotalOne(grid, i);
    forall k ensures !SmudgedAt(grid, i, k) {
      var other := if k == k1 then k2 else k1;
      assert other != k && !Mirrors(grid[other], i);
    }
  }

  /** No other fold of the sample has total 0 or 1: rows 0 and 6 differ
      across the fold before the second column, rows 2 and 3 across every
      fold but the first and the sixth. */
  lemma SampleOtherFolds(i: nat)
    requires 1 <= i < 9 && i != 5
    ensures Total(SamplePattern(), i) != 0 && Total(SamplePattern(), i) != 1
  {
    var grid := SamplePattern();
    if i == 1 {
      Unmirrored(grid[0], 1, 0);
      Unmirrored(grid[6], 1, 0);
      TwoUnmirrored(grid, 1, 0, 6);
    } else {
      var j := if i == 2 || i == 8 then 0 else if i == 3 || i == 7 then 1 else 2;
      Unmirrored(grid[2], i, j);
      Unmirrored(grid[3], i, j);
      TwoUnmirrored(grid, i, 2, 3);
    }
  }

  /** So the sample's perfect fold is the one the source's test expects,
      the only fold with no mismatch, and no fold has exactly one. */
  lemma ExamplePerfectFold()
    ensures Reported(SamplePattern(), Some(5), 0) && Reported(SamplePattern(), None, 1)
    ensures forall i | 1 <= i < Width(SamplePattern()) && Total(SamplePattern(), i) == 0 :: i == 5
  {
    var grid := SamplePattern();
    SampleRowsMirror();
    PerfectFold(grid, 5, 9);
    forall i | 1 <= i < 9 && i != 5 ensures Total(grid, i) != 0 && Total(grid, i) != 1 {
      SampleOtherFolds(i);
    }
  }

  /** Whatever order the search visits the folds in, it reports
      `(Some(5), None)` for the sample, as the source's test expects. */
  lemma ExampleFindSymmetryLine(zero: Option<nat>, one: Option<nat>)
    requires Reported(SamplePattern(), zero, 0) && Reported(SamplePattern(), one, 1)
    ensures zero == Some(5) && one == None
  {
    ExamplePerfectFold();
  }
}
