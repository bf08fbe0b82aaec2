/** Cosmic expansion: every row and every column without a galaxy grows
    by a factor, and the answer is the sum of the Manhattan distances
    between all pairs of galaxies after the growth. Part a doubles the
    empty lines (one extra line each), part b adds 999999 lines each. */
module Day11 {
  import opened Common

  datatype Space = Galaxy | Nothing

  type Grid = seq<seq<Space>>

  /** A position as `(x, y)`: the column, then the row. */
  type Point = (nat, nat)

  // ---------------------------------------------------------------------
  // Parsing

  function SpaceOf(c: char): (r: Option<Space>)
    ensures r.Some? <==> c == '.' || c == '#'
    ensures r == Some(Galaxy) <==> c == '#'
    ensures r == Some(Nothing) <==> c == '.'
  {
    if c == '.' then Some(Nothing) else if c == '#' then Some(Galaxy) else None
  }

  /** `parse_line`: `None` where the source panics on a character other
      than `.` and `#`. */
  function ParseLine(line: string): (r: Option<seq<Space>>)
    ensures r.Some? <==> forall k | 0 <= k < |line| :: line[k] == '.' || line[k] == '#'
    ensures r.Some? ==> |r.value| == |line|
    ensures r.Some? ==> forall k | 0 <= k < |line| :: (r.value[k] == Galaxy <==> line[k] == '#')
  {
    var cells := seq(|line|, k requires 0 <= k < |line| => SpaceOf(line[k]));
    assert forall k | 0 <= k < |line| :: cells[k].Some? <==> line[k] == '.' || line[k] == '#';
    AllSome(cells)
  }

  /** The rows of the map, one per line; `None` when a line does not
      parse. */
  function ParseGrid(source: string): (r: Option<Grid>)
    ensures var lines := Split(source, "\n");
      r.Some? ==> |r.value| == |lines| && forall k | 0 <= k < |lines| :: ParseLine(lines[k]) == Some(r.value[k])
    ensures r.None? ==> exists k | 0 <= k < |Split(source, "\n")| :: ParseLine(Split(source, "\n")[k]).None?
  {
    var lines := Split(source, "\n");
    var rows := seq(|lines|, k requires 0 <= k < |lines| => ParseLine(lines[k]));
    assert forall k | 0 <= k < |lines| :: rows[k] == ParseLine(lines[k]);
    AllSome(rows)
  }

  // ---------------------------------------------------------------------
  // Distance

  function AbsDiff(a: nat, b: nat): nat {
    if a <= b then b - a else a - b
  }

  /** `distance`: the Manhattan distance, zero exactly between equal
      points. */
  function Distance(a: Point, b: Point): (d: nat)
    ensures d == 0 <==> a == b
  {
    AbsDiff(a.0, b.0) + AbsDiff(a.1, b.1)
  }

  lemma DistanceSymmetric(a: Point, b: Point)
    ensures Distance(a, b) == Distance(b, a)
  {
  }

  lemma DistanceTriangle(a: Point, b: Point, c: Point)
    ensures Distance(a, c) <= Distance(a, b) + Distance(b, c)
  {
  }

  // ---------------------------------------------------------------------
  // Empty lines

  /** A line without a galaxy (`all` holds on an empty line too). */
  predicate Blank(line: seq<Space>) {
    forall k | 0 <= k < |line| :: line[k] == Nothing
  }

  /** The number of blank lines among the first `n` lines. */
  function BlankCount(space: Grid, n: nat): (c: nat)
    requires n <= |space|
    ensures c <= n
  {
    if n == 0 then 0 else BlankCount(space, n - 1) + (if Blank(space[n - 1]) then 1 else 0)
  }

  /** The first loop of `insert_blanks`: the indices of the blank lines,
      collected from the last line to the first. */
  method FindBlanks(space: Grid) returns (blanks: seq<nat>)
    ensures forall i: nat :: i in blanks <==> i < |space| && Blank(space[i])
    ensures forall a, b | 0 <= a < b < |blanks| :: blanks[a] > blanks[b]
  {
    blanks := [];
    var index := |space|;
    while index > 0
      invariant 0 <= index <= |space|
      invariant forall i: nat :: i in blanks <==> index <= i < |space| && Blank(space[i])
      invariant forall a, b | 0 <= a < b < |blanks| :: blanks[a] > blanks[b]
      invariant forall a | 0 <= a < |blanks| :: blanks[a] >= index
    {
      index := index - 1;
      if Blank(space[index]) {
        blanks := blanks + [index];
      }
    }
  }

  // ---------------------------------------------------------------------
  // Transpose

  /** `transpose`: one result row per row of the matrix, row `j` the
      column `j`; `None` where the source indexes past the rows it
      allocated, on a row longer than the matrix is high. */
  function TransposeOf(matrix: Grid): Option<Grid> {
    if exists k | 0 <= k < |matrix| :: |matrix[k]| > |matrix| then None
    else Some(seq(|matrix|, j requires 0 <= j < |matrix| => Column(matrix, j)))
  }

  /** `transpose`, pushing every cell onto the row of its column. */
  method Transpose(matrix: Grid) returns (r: Option<Grid>)
    ensures r == TransposeOf(matrix)
  {
    var transposed: Grid := seq(|matrix|, j => []);
    for k := 0 to |matrix|
      invariant |transposed| == |matrix|
      invariant forall j | 0 <= j < |transposed| :: transposed[j] == Column(matrix[..k], j)
      invariant forall i | 0 <= i < k :: |matrix[i]| <= |matrix|
    {
      var row := matrix[k];
      assert matrix[..k + 1][..k] == matrix[..k];
      for index := 0 to |row|
        invariant |transposed| == |matrix|
        invariant index <= |transposed|
        invariant forall j | 0 <= j < index :: transposed[j] == Column(matrix[..k + 1], j)
        invariant forall j | index <= j < |transposed| :: transposed[j] == Column(matrix[..k], j)
      {
        if index >= |transposed| {
          return None;
        }
        transposed := transposed[index := transposed[index] + [row[index]]];
      }
    }
    assert matrix[..|matrix|] == matrix;
    assert transposed == seq(|matrix|, j requires 0 <= j < |matrix| => Column(matrix, j));
    return Some(transposed);
  }

  /** A grid whose rows all have `w <= |grid|` cells. */
  predicate Rectangle(grid: Grid, w: nat) {
    w <= |grid| && forall k | 0 <= k < |grid| :: |grid[k]| == w
  }

  /** Column `j` of a rectangle has no galaxy. */
  predicate ColumnBlank(grid: Grid, j: nat) {
    forall i | 0 <= i < |grid| :: j < |grid[i]| ==> grid[i][j] == Nothing
  }

  /** The transpose of a rectangle holds its columns, and then as many
      empty rows as the rectangle is higher than wide; a row of the
      transpose is blank exactly when the column is. */
  lemma TransposeRectangle(grid: Grid, w: nat)
    requires Rectangle(grid, w)
    ensures TransposeOf(grid).Some?
    ensures var t := TransposeOf(grid).value;
      && |t| == |grid|
      && (forall j | 0 <= j < w :: |t[j]| == |grid| && forall i | 0 <= i < |grid| :: t[j][i] == grid[i][j])
      && (forall j | w <= j < |t| :: t[j] == [])
      && (forall j | 0 <= j < |t| :: Blank(t[j]) <==> ColumnBlank(grid, j))
  {
    var t := TransposeOf(grid).value;
    forall j | 0 <= j < w
      ensures |t[j]| == |grid| && forall i | 0 <= i < |grid| :: t[j][i] == grid[i][j]
    {
      ColumnOfRectangle(grid, w, j);
    }
    forall j | w <= j < |t| ensures t[j] == [] {
      ColumnBeyond(grid, j);
    }
  }

  lemma {:induction false} ColumnBeyond(grid: Grid, j: nat)
    requires forall k | 0 <= k < |grid| :: |grid[k]| <= j
    ensures Column(grid, j) == []
  {
    if grid != [] {
      ColumnBeyond(grid[..|grid| - 1], j);
    }
  }

  // ---------------------------------------------------------------------
  // The galaxies

  predicate IsGalaxy(grid: Grid, p: Point) {
    p.1 < |grid| && p.0 < |grid[p.1]| && grid[p.1][p.0] == Galaxy
  }

  /** Every galaxy, keyed by where it was found, at first where it is. */
  function Located(grid: Grid): (m: map<Point, Point>)
    ensures forall p: Point :: p in m <==> IsGalaxy(grid, p)
    ensures forall p | p in m :: m[p] == p
  {
    var found := set y, x | 0 <= y < |grid| && 0 <= x < |grid[y]| && grid[y][x] == Galaxy :: (x, y);
    assert forall p: Point | IsGalaxy(grid, p) :: p in found by {
      forall p: Point | IsGalaxy(grid, p) ensures p in found {
        var (x, y) := p;
        assert 0 <= y < |grid| && 0 <= x < |grid[y]| && grid[y][x] == Galaxy;
      }
    }
    map p | p in found :: p
  }

  /** The first loop of `calculate`: every galaxy cell entered under its
      own position. */
  method Locate(grid: Grid) returns (galaxies: map<Point, Point>)
    ensures galaxies == Located(grid)
  {
    galaxies := map[];
    for y := 0 to |grid|
      invariant forall p: Point :: p in galaxies <==> IsGalaxy(grid, p) && p.1 < y
      invariant forall p | p in galaxies :: galaxies[p] == p
    {
      var line := grid[y];
      for x := 0 to |line|
        invariant forall p: Point :: p in galaxies <==> IsGalaxy(grid, p) && (p.1 < y || (p.1 == y && p.0 < x))
        invariant forall p | p in galaxies :: galaxies[p] == p
      {
        if line[x] == Galaxy {
          galaxies := galaxies[(x, y) := (x, y)];
        }
      }
    }
    assert galaxies == Located(grid);
  }

  /** The line a key is found on when `space` is scanned: its row, or
      its column when `space` is the transpose. */
  function LineOf(key: Point, transposed: bool): nat {
    if transposed then key.0 else key.1
  }

  /** The cell within that line. */
  function CellOf(key: Point, transposed: bool): nat {
    if transposed then key.1 else key.0
  }

  /** The scan over `space` meets `key`. */
  predicate Scanned(space: Grid, key: Point, transposed: bool) {
    LineOf(key, transposed) < |space| && CellOf(key, transposed) < |space[LineOf(key, transposed)]|
  }

  /** The position of the galaxy found at `key`, once the blank lines of
      `space` up to and including its own line are inserted before it. */
  function Shift(space: Grid, dilateBy: nat, transposed: bool, key: Point, at: Point): (r: Point)
    ensures if transposed then r.1 == at.1 && r.0 >= at.0 else r.0 == at.0 && r.1 >= at.1
  {
    if !Scanned(space, key, transposed) then at
    else
      var amount: nat := dilateBy * BlankCount(space, LineOf(key, transposed) + 1);
      if transposed then (at.0 + amount, at.1) else (at.0, at.1 + amount)
  }

  /** Every galaxy shifted by the blank lines of `space`: the keys stay,
      and only the coordinate across the lines moves, never backwards. */
  function Shifted(m: map<Point, Point>, space: Grid, dilateBy: nat, transposed: bool): (r: map<Point, Point>)
    ensures r.Keys == m.Keys
    ensures forall k | k in m :: if transposed then r[k].1 == m[k].1 && r[k].0 >= m[k].0 else r[k].0 == m[k].0 && r[k].1 >= m[k].1
  {
    map k | k in m :: Shift(space, dilateBy, transposed, k, m[k])
  }

  /** The keys the scan has passed once it stands at cell `x` of line `y`. */
  predicate Visited(space: Grid, key: Point, transposed: bool, y: nat, x: nat) {
    && Scanned(space, key, transposed)
    && (LineOf(key, transposed) < y || (LineOf(key, transposed) == y && CellOf(key, transposed) < x))
  }

  function Partial(m: map<Point, Point>, space: Grid, dilateBy: nat, transposed: bool, y: nat, x: nat): map<Point, Point> {
    map k | k in m :: if Visited(space, k, transposed, y, x) then Shift(space, dilateBy, transposed, k, m[k]) else m[k]
  }

  /** The galaxies of one part of the puzzle, updated in place. */
  class Galaxies {
    var positions: map<Point, Point>

    constructor(located: map<Point, Point>)
      ensures positions == located
    {
      positions := located;
    }

    /** `insert_blanks`: scanning `space` line by line, counting the blank
        lines met so far (the current one included), and moving every
        galaxy met across the lines by `dilateBy` per blank line. */
    method InsertBlanks(space: Grid, dilateBy: nat, transposed: bool)
      modifies this
      ensures positions == Shifted(old(positions), space, dilateBy, transposed)
    {
      var blanks := FindBlanks(space);
      ghost var start := positions;
      var amount := 0;
      for y := 0 to |space|
        invariant amount == BlankCount(space, y)
        invariant positions == Partial(start, space, dilateBy, transposed, y, 0)
      {
        if y in blanks {
          amount := amount + 1;
        }
        assert amount == BlankCount(space, y + 1);
        ShiftLine(space, dilateBy, transposed, y, amount, start);
        ScanLine(start, space, dilateBy, transposed, y);
      }
      ScanDone(start, space, dilateBy, transposed);
    }

    /** The inner loop of `insert_blanks`: every galaxy met along line `y`
        moves by `dilateBy` per blank line up to and including `y`. */
    method ShiftLine(space: Grid, dilateBy: nat, transposed: bool, y: nat, amount: nat, ghost start: map<Point, Point>)
      requires y < |space| && amount == BlankCount(space, y + 1)
      requires positions == Partial(start, space, dilateBy, transposed, y, 0)
      modifies this
      ensures positions == Partial(start, space, dilateBy, transposed, y, |space[y]|)
    {
      for x := 0 to |space[y]|
        invariant positions == Partial(start, space, dilateBy, transposed, y, x)
      {
        var key := if transposed then (y, x) else (x, y);
        ScanCell(start, space, dilateBy, transposed, y, x);
        if key in positions {
          var entry := positions[key];
          positions := positions[key := if transposed then (entry.0 + dilateBy * amount, entry.1) else (entry.0, entry.1 + dilateBy * amount)];
        }
      }
    }
  }

  /** Passing one cell of the scan moves the key found there, if any, and
      nothing else. */
  lemma ScanCell(m: map<Point, Point>, space: Grid, dilateBy: nat, transposed: bool, y: nat, x: nat)
    requires y < |space| && x < |space[y]|
    ensures var key := if transposed then (y, x) else (x, y);
      var before := Partial(m, space, dilateBy, transposed, y, x);
      && (key in before <==> key in m)
      && (key in m ==> before[key] == m[key])
      && (key in m ==>
        Partial(m, space, dilateBy, transposed, y, x + 1) == before[key := Shift(space, dilateBy, transposed, key, m[key])])
      && (key !in m ==> Partial(m, space, dilateBy, transposed, y, x + 1) == before)
  {
    var key: Point := if transposed then (y, x) else (x, y);
    assert LineOf(key, transposed) == y && CellOf(key, transposed) == x;
    var before := Partial(m, space, dilateBy, transposed, y, x);
    var after := Partial(m, space, dilateBy, transposed, y, x + 1);
    if key in m {
      assert after == before[key := Shift(space, dilateBy, transposed, key, m[key])];
    } else {
      assert after == before;
    }
  }

  /** Passing the end of a line is starting the next one. */
  lemma ScanLine(m: map<Point, Point>, space: Grid, dilateBy: nat, transposed: bool, y: nat)
    requires y < |space|
    ensures Partial(m, space, dilateBy, transposed, y, |space[y]|) == Partial(m, space, dilateBy, transposed, y + 1, 0)
  {
  }

  /** Past the last line every key the scan meets has moved. */
  lemma ScanDone(m: map<Point, Point>, space: Grid, dilateBy: nat, transposed: bool)
    ensures Partial(m, space, dilateBy, transposed, |space|, 0) == Shifted(m, space, dilateBy, transposed)
  {
  }

  // ---------------------------------------------------------------------
  // Sums over pairs

  /** The distances from `x` to every point of `ps`. */
  function Row(ps: seq<Point>, x: Point): nat {
    if ps == [] then 0 else Distance(x, ps[0]) + Row(ps[1..], x)
  }

  /** The distances between every two positions of `ps`, each unordered
      pair once: each point with every point after it. */
  function Pairwise(ps: seq<Point>): nat {
    if ps == [] then 0 else Row(ps[1..], ps[0]) + Pairwise(ps[1..])
  }

  /** The last loop of `calculate`: every galaxy with every galaxy after
      it in the list. */
  method SumPairs(values: seq<Point>) returns (result: nat)
    ensures result == Pairwise(values)
  {
    result := 0;
    for i := 0 to |values|
      invariant result + Pairwise(values[i..]) == Pairwise(values)
    {
      var left := values[i];
      assert values[i..][1..] == values[i + 1..];
      for j := i + 1 to |values|
        invariant result + Row(values[j..], left) + Pairwise(values[i + 1..]) == Pairwise(values)
      {
        assert values[j..][1..] == values[j + 1..];
        result := result + Distance(left, values[j]);
      }
    }
  }

  function Remove(s: seq<Point>, k: nat): (r: seq<Point>)
    requires k < |s|
    ensures |r| == |s| - 1
  {
    s[..k] + s[k + 1..]
  }

  /** Taking the first element of `t` out of `s`, where it sits at `k`,
      leaves the same elements as the rest of `t`. */
  lemma {:induction false} RemoveMatching(s: seq<Point>, t: seq<Point>, k: nat)
    requires multiset(s) == multiset(t) && t != [] && k < |s| && s[k] == t[0]
    ensures multiset(Remove(s, k)) == multiset(t[1..])
  {
    var y := t[0];
    var front, back := s[..k], s[k + 1..];
    assert s == front + [y] + back;
    assert t == [y] + t[1..];
    var a, b := multiset(front + back), multiset(t[1..]);
    assert multiset(s) == multiset(front) + multiset{y} + multiset(back);
    assert a == multiset(front) + multiset(back);
    assert multiset(t) == multiset{y} + b;
    forall x ensures a[x] == b[x] {
      assert multiset(s)[x] == multiset(front)[x] + multiset{y}[x] + multiset(back)[x];
      assert multiset(t)[x] == multiset{y}[x] + b[x];
    }
    assert a == b;
  }

  lemma {:induction false} RowRemove(u: seq<Point>, k: nat, x: Point)
    requires k < |u|
    ensures Row(u, x) == Distance(x, u[k]) + Row(Remove(u, k), x)
  {
    if k > 0 {
      RowRemove(u[1..], k - 1, x);
      assert Remove(u, k) == [u[0]] + Remove(u[1..], k - 1);
      assert Remove(u, k)[1..] == Remove(u[1..], k - 1);
    } else {
      assert Remove(u, k) == u[1..];
    }
  }

  /** The distances from one point do not depend on the order of the
      others. */
  lemma {:induction false} RowPermutation(u: seq<Point>, v: seq<Point>, x: Point)
    requires multiset(u) == multiset(v)
    ensures Row(u, x) == Row(v, x)
  {
    if v == [] {
      assert |u| == |multiset(u)| == 0;
    } else {
      var y := v[0];
      assert y in multiset(u);
      var k :| 0 <= k < |u| && u[k] == y;
      assert v == [y] + v[1..];
      RemoveMatching(u, v, k);
      RowPermutation(Remove(u, k), v[1..], x);
      RowRemove(u, k, x);
    }
  }

  lemma {:induction false} PairwiseRemove(s: seq<Point>, k: nat)
    requires k < |s|
    ensures Pairwise(s) == Pairwise(Remove(s, k)) + Row(Remove(s, k), s[k])
  {
    if k > 0 {
      var a, x := s[0], s[k];
      var rest := Remove(s[1..], k - 1);
      assert Pairwise(s[1..]) == Pairwise(rest) + Row(rest, x) by {
        assert s[1..][k - 1] == x;
        PairwiseRemove(s[1..], k - 1);
      }
      assert Row(s[1..], a) == Distance(x, a) + Row(rest, a) by {
        RowRemove(s[1..], k - 1, a);
        DistanceSymmetric(a, x);
      }
      assert Remove(s, k) == [a] + rest;
      assert Remove(s, k)[1..] == rest;
      assert Pairwise(Remove(s, k)) == Row(rest, a) + Pairwise(rest);
      assert Row(Remove(s, k), x) == Distance(x, a) + Row(rest, x);
    } else {
      assert Remove(s, k) == s[1..];
    }
  }

  /** The sum over pairs does not depend on the order the points are
      listed in, so the order a hash map hands out its values does not
      matter. */
  lemma {:induction false} PairwisePermutation(s: seq<Point>, t: seq<Point>)
    requires multiset(s) == multiset(t)
    ensures Pairwise(s) == Pairwise(t)
  {
    if t == [] {
      assert |s| == |multiset(s)| == 0;
    } else {
      var y := t[0];
      assert y in multiset(s);
      var k :| 0 <= k < |s| && s[k] == y;
      assert t == [y] + t[1..];
      RemoveMatching(s, t, k);
      PairwisePermutation(Remove(s, k), t[1..]);
      RowPermutation(Remove(s, k), t[1..], y);
      PairwiseRemove(s, k);
    }
  }

  // ---------------------------------------------------------------------
  // Listing the galaxies

  predicate Distinct(s: seq<Point>) {
    forall i, j | 0 <= i < j < |s| :: s[i] != s[j]
  }

  /** The positions `m` gives the keys `s`, in the order of `s`. */
  function Image(m: map<Point, Point>, s: seq<Point>): (r: seq<Point>)
    requires forall i | 0 <= i < |s| :: s[i] in m
    ensures |r| == |s| && forall i | 0 <= i < |s| :: r[i] == m[s[i]]
  {
    seq(|s|, i requires 0 <= i < |s| => m[s[i]])
  }

  /** A distinct sequence holds each of its elements once. */
  lemma {:induction false} DistinctMultiset(s: seq<Point>, x: Point)
    requires Distinct(s)
    ensures multiset(s)[x] == if x in s then 1 else 0
  {
    if s != [] {
      assert s == [s[0]] + s[1..];
      DistinctMultiset(s[1..], x);
    }
  }

  lemma {:induction false} ImageConcat(m: map<Point, Point>, a: seq<Point>, b: seq<Point>)
    requires forall i | 0 <= i < |a| :: a[i] in m
    requires forall i | 0 <= i < |b| :: b[i] in m
    ensures forall i | 0 <= i < |a + b| :: (a + b)[i] in m
    ensures Image(m, a + b) == Image(m, a) + Image(m, b)
  {
  }

  lemma {:induction false} PermutationKeys(m: map<Point, Point>, s: seq<Point>, t: seq<Point>)
    requires forall i | 0 <= i < |s| :: s[i] in m
    requires multiset(s) == multiset(t)
    ensures forall i | 0 <= i < |t| :: t[i] in m
  {
    forall i | 0 <= i < |t| ensures t[i] in m {
      assert t[i] in multiset(s);
    }
  }

  /** Two listings of the same keys, up to order, give the same positions,
      up to order. */
  lemma {:induction false} ImagePermutation(m: map<Point, Point>, s: seq<Point>, t: seq<Point>)
    requires forall i | 0 <= i < |s| :: s[i] in m
    requires multiset(s) == multiset(t)
    ensures forall i | 0 <= i < |t| :: t[i] in m
    ensures multiset(Image(m, s)) == multiset(Image(m, t))
    decreases |t|
  {
    PermutationKeys(m, s, t);
    if t != [] {
      var front, back := PickFirst(s, t);
      assert forall i | 0 <= i < |front + back| :: (front + back)[i] in m by {
        assert forall i | 0 <= i < |front + back| :: (front + back)[i] == s[if i < |front| then i else i + 1];
      }
      ImagePermutation(m, front + back, t[1..]);
      ImageSplit(m, s, t, front, back);
    }
  }

  /** The first element of `t` found in `s`, with what surrounds it. */
  lemma {:induction false} PickFirst(s: seq<Point>, t: seq<Point>) returns (front: seq<Point>, back: seq<Point>)
    requires multiset(s) == multiset(t) && t != []
    ensures s == front + [t[0]] + back
    ensures multiset(front + back) == multiset(t[1..])
  {
    var y := t[0];
    assert y in multiset(s);
    var k :| 0 <= k < |s| && s[k] == y;
    front, back := s[..k], s[k + 1..];
    assert s == front + [y] + back;
    RemoveMatching(s, t, k);
  }

  /** The step of `ImagePermutation`: `s` and `t` share their first
      key's position, and the rest have the same positions up to order. */
  lemma {:induction false} ImageSplit(m: map<Point, Point>, s: seq<Point>, t: seq<Point>, front: seq<Point>, back: seq<Point>)
    requires t != [] && s == front + [t[0]] + back
    requires forall i | 0 <= i < |s| :: s[i] in m
    requires forall i | 0 <= i < |t| :: t[i] in m
    requires forall i | 0 <= i < |front + back| :: (front + back)[i] in m
    requires multiset(Image(m, front + back)) == multiset(Image(m, t[1..]))
    ensures multiset(Image(m, s)) == multiset(Image(m, t))
  {
    var y := t[0];
    assert forall i | 0 <= i < |front| :: front[i] == s[i];
    assert forall i | 0 <= i < |back| :: back[i] == s[|front| + 1 + i];
    ImageConcat(m, front, back);
    ImageConcat(m, front, [y]);
    ImageConcat(m, front + [y], back);
    assert t == [y] + t[1..];
    ImageConcat(m, [y], t[1..]);
    MultisetMiddle(Image(m, front), m[y], Image(m, back), Image(m, t[1..]));
  }

  lemma {:induction false} MultisetMiddle(a: seq<Point>, v: Point, b: seq<Point>, c: seq<Point>)
    requires multiset(a + b) == multiset(c)
    ensures multiset(a + [v] + b) == multiset([v] + c)
  {
    forall x ensures multiset(a + [v] + b)[x] == multiset([v] + c)[x] {
      assert multiset(a + [v] + b)[x] == multiset(a)[x] + multiset([v])[x] + multiset(b)[x];
      assert multiset(a + b)[x] == multiset(a)[x] + multiset(b)[x];
    }
  }

  /** `galaxies.values()`: every position in the map, in whatever order
      the map hands them out; `order` is the order of the keys. */
  method Values(m: map<Point, Point>) returns (values: seq<Point>, ghost order: seq<Point>)
    ensures Distinct(order) && forall p :: p in order <==> p in m
    ensures values == Image(m, order)
  {
    values, order := [], [];
    var keys := m.Keys;
    while keys != {}
      invariant keys <= m.Keys
      invariant forall p :: p in order <==> p in m && p !in keys
      invariant Distinct(order)
      invariant values == Image(m, order)
      decreases keys
    {
      var k :| k in keys;
      values, order := values + [m[k]], order + [k];
      keys := keys - {k};
    }
  }

  /** The galaxies of the first `n` cells of row `y`, left to right. */
  function RowGalaxies(row: seq<Space>, y: nat, n: nat): (r: seq<Point>)
    requires n <= |row|
    ensures forall p :: p in r <==> p.1 == y && p.0 < n && row[p.0] == Galaxy
    ensures forall i, j | 0 <= i < j < |r| :: r[i].0 < r[j].0
  {
    if n == 0 then [] else RowGalaxies(row, y, n - 1) + (if row[n - 1] == Galaxy then [(n - 1, y)] else [])
  }

  /** The galaxies row by row, each row left to right. */
  function GalaxiesOf(grid: Grid): (r: seq<Point>)
    ensures forall p :: p in r <==> IsGalaxy(grid, p)
    ensures forall i, j | 0 <= i < j < |r| :: r[i].1 < r[j].1 || (r[i].1 == r[j].1 && r[i].0 < r[j].0)
  {
    if grid == [] then []
    else
      var n := |grid| - 1;
      var front := GalaxiesOf(grid[..n]);
      assert forall k | 0 <= k < n :: grid[..n][k] == grid[k];
      var last := RowGalaxies(grid[n], n, |grid[n]|);
      assert forall i | 0 <= i < |front| :: front[i].1 < n by {
        assert forall i | 0 <= i < |front| :: front[i] in front;
      }
      assert forall i | 0 <= i < |last| :: last[i].1 == n by {
        assert forall i | 0 <= i < |last| :: last[i] in last;
      }
      front + last
  }

  /** Listed row by row, no galaxy comes twice. */
  lemma GalaxiesDistinct(grid: Grid)
    ensures Distinct(GalaxiesOf(grid))
  {
    var gs := GalaxiesOf(grid);
    forall i, j | 0 <= i < j < |gs| ensures gs[i] != gs[j] {
    }
  }

  /** Two listings without repeats of the same points hold the same
      points the same number of times. */
  lemma DistinctSameElements(s: seq<Point>, t: seq<Point>)
    requires Distinct(s) && Distinct(t)
    requires forall p :: p in s <==> p in t
    ensures multiset(s) == multiset(t)
  {
    forall x ensures multiset(s)[x] == multiset(t)[x] {
      DistinctMultiset(s, x);
      DistinctMultiset(t, x);
    }
  }

  // ---------------------------------------------------------------------
  // calculate

  /** The galaxies after both passes of `insert_blanks`, the second over
      the transpose `t`, keyed by where they were found. */
  function Expansion(grid: Grid, t: Grid, dilateBy: nat): (m: map<Point, Point>)
    ensures forall p: Point :: p in m <==> IsGalaxy(grid, p)
  {
    Shifted(Shifted(Located(grid), grid, dilateBy, false), t, dilateBy, true)
  }

  /** The sum of the distances between every two galaxies once expanded. */
  function PairTotal(grid: Grid, t: Grid, dilateBy: nat): nat {
    var m := Expansion(grid, t, dilateBy);
    var gs := GalaxiesOf(grid);
    assert forall i | 0 <= i < |gs| :: gs[i] in m by {
      assert forall i | 0 <= i < |gs| :: gs[i] in gs;
    }
    Pairwise(Image(m, gs))
  }

  /** `calculate`: locate the galaxies, shift them down past the blank
      rows, transpose, shift them right past the blank columns, and sum
      the distances over the pairs of their positions in the order the
      map hands them out; `None` where `transpose` panics. */
  method Calculate(grid: Grid, dilateBy: nat) returns (r: Option<nat>)
    ensures TransposeOf(grid).None? ==> r.None?
    ensures TransposeOf(grid).Some? ==> r == Some(PairTotal(grid, TransposeOf(grid).value, dilateBy))
  {
    var located := Locate(grid);
    var galaxies := new Galaxies(located);
    galaxies.InsertBlanks(grid, dilateBy, false);
    var t := Transpose(grid);
    if t.None? {
      return None;
    }
    galaxies.InsertBlanks(t.value, dilateBy, true);
    var values, order := Values(galaxies.positions);
    var total := SumPairs(values);
    var m := galaxies.positions;
    var gs := GalaxiesOf(grid);
    GalaxiesDistinct(grid);
    DistinctSameElements(order, gs);
    ImagePermutation(m, order, gs);
    PairwisePermutation(Image(m, order), Image(m, gs));
    return Some(total);
  }

  // ---------------------------------------------------------------------
  // Where the galaxies end up

  /** The number of blank columns among the first `n`. */
  function BlankColumns(grid: Grid, n: nat): (c: nat)
    ensures c <= n
  {
    if n == 0 then 0 else BlankColumns(grid, n - 1) + (if ColumnBlank(grid, n - 1) then 1 else 0)
  }

  lemma {:induction false} BlankCountTranspose(grid: Grid, w: nat, n: nat)
    requires Rectangle(grid, w) && n <= |grid|
    ensures TransposeOf(grid).Some?
    ensures BlankCount(TransposeOf(grid).value, n) == BlankColumns(grid, n)
  {
    TransposeRectangle(grid, w);
    if n > 0 {
      BlankCountTranspose(grid, w, n - 1);
    }
  }

  /** On a map no wider than it is high, each galaxy ends up `dilateBy`
      further right for every blank column left of it and `dilateBy`
      further down for every blank row above it. */
  lemma Expanded(grid: Grid, w: nat, t: Grid, dilateBy: nat, p: Point)
    requires Rectangle(grid, w) && IsGalaxy(grid, p) && TransposeOf(grid) == Some(t)
    ensures Expansion(grid, t, dilateBy)[p] ==
      (p.0 + dilateBy * BlankColumns(grid, p.0), p.1 + dilateBy * BlankCount(grid, p.1))
  {
    ExpansionAt(grid, t, dilateBy, p);
    var at := Shifted(Located(grid), grid, dilateBy, false)[p];
    RowPass(grid, dilateBy, p);
    ColumnPass(grid, w, t, dilateBy, p, at);
    var e := Expansion(grid, t, dilateBy)[p];
    assert e.0 == p.0 + dilateBy * BlankColumns(grid, p.0);
    assert e.1 == p.1 + dilateBy * BlankCount(grid, p.1);
  }

  /** A galaxy's expanded position is its first-pass position shifted by
      the second pass. */
  lemma ExpansionAt(grid: Grid, t: Grid, dilateBy: nat, p: Point)
    requires IsGalaxy(grid, p)
    ensures p in Shifted(Located(grid), grid, dilateBy, false)
    ensures Expansion(grid, t, dilateBy)[p] ==
      Shift(t, dilateBy, true, p, Shifted(Located(grid), grid, dilateBy, false)[p])
  {
    var first := Shifted(Located(grid), grid, dilateBy, false);
    ShiftedAt(first, t, dilateBy, true, p);
  }

  lemma ShiftedAt(m: map<Point, Point>, space: Grid, dilateBy: nat, transposed: bool, k: Point)
    requires k in m
    ensures Shifted(m, space, dilateBy, transposed)[k] == Shift(space, dilateBy, transposed, k, m[k])
  {
  }

  /** The first pass moves a galaxy down past the blank rows above it. */
  lemma RowPass(grid: Grid, dilateBy: nat, p: Point)
    requires IsGalaxy(grid, p)
    ensures Shifted(Located(grid), grid, dilateBy, false)[p] == (p.0, p.1 + dilateBy * BlankCount(grid, p.1))
  {
    assert grid[p.1][p.0] == Galaxy;
    assert !Blank(grid[p.1]);
    assert Scanned(grid, p, false);
  }

  /** The second pass, over the transpose, moves it right past the blank
      columns left of it. */
  lemma ColumnPass(grid: Grid, w: nat, t: Grid, dilateBy: nat, p: Point, at: Point)
    requires Rectangle(grid, w) && IsGalaxy(grid, p)
    requires TransposeOf(grid) == Some(t)
    ensures Shift(t, dilateBy, true, p, at) == (at.0 + dilateBy * BlankColumns(grid, p.0), at.1)
  {
    TransposeRectangle(grid, w);
    BlankCountTranspose(grid, w, p.0 + 1);
    assert grid[p.1][p.0] == Galaxy;
    assert !ColumnBlank(grid, p.0);
    assert Scanned(t, p, true);
  }

  // ---------------------------------------------------------------------
  // exec

  /** `exec`: both parts on the map; `None` where a line does not parse
      or `transpose` panics. */
  method Exec(source: string) returns (r: Option<(nat, nat)>)
    ensures ParseGrid(source).None? ==> r.None?
    ensures ParseGrid(source).Some? && TransposeOf(ParseGrid(source).value).None? ==> r.None?
    ensures ParseGrid(source).Some? && TransposeOf(ParseGrid(source).value).Some? ==>
      var grid := ParseGrid(source).value;
      var t := TransposeOf(grid).value;
      r == Some((PairTotal(grid, t, 1), PairTotal(grid, t, 999999)))
  {
    var parsed := ParseGrid(source);
    if parsed.None? {
      return None;
    }
    var partA := Calculate(parsed.value, 1);
    var partB := Calculate(parsed.value, 999999);
    if partA.None? || partB.None? {
      return None;
    }
    return Some((partA.value, partB.value));
  }

  // ---------------------------------------------------------------------
  // Examples

  lemma ExampleParseLine()
    ensures ParseLine(".#.") == Some([Nothing, Galaxy, Nothing])
  {
    var r := ParseLine(".#.");
    assert r.Some?;
    assert r.value == [Nothing, Galaxy, Nothing];
  }

  /** Two blank rows above a galaxy move it two rows down. */
  lemma ExampleInsertBlanks()
    ensures Shifted(map[(1, 2) := (1, 2)], [[Nothing, Nothing], [Nothing, Nothing], [Nothing, Galaxy]], 1, false)[(1, 2)] == (1, 4)
  {
    var space := [[Nothing, Nothing], [Nothing, Nothing], [Nothing, Galaxy]];
    assert space[2][1] == Galaxy;
    assert Blank(space[0]) && Blank(space[1]) && !Blank(space[2]);
    assert BlankCount(space, 3) == 2;
  }

  lemma ExampleTranspose()
    ensures TransposeOf([[Nothing, Nothing], [Galaxy, Galaxy]]) == Some([[Nothing, Galaxy], [Nothing, Galaxy]])
  {
    var grid := [[Nothing, Nothing], [Galaxy, Galaxy]];
    assert Column(grid, 0) == [Nothing, Galaxy] by {
      assert grid[..1] == [[Nothing, Nothing]];
      assert grid[..1][..0] == [];
    }
    assert Column(grid, 1) == [Nothing, Galaxy] by {
      assert grid[..1] == [[Nothing, Nothing]];
      assert grid[..1][..0] == [];
    }
    assert !exists k | 0 <= k < |grid| :: |grid[k]| > |grid|;
    assert seq(|grid|, j requires 0 <= j < |grid| => Column(grid, j)) == [[Nothing, Galaxy], [Nothing, Galaxy]];
  }
}
