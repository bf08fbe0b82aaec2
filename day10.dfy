/** Pipe maze: every cell of the map is a pipe whose character says which
    of its four sides are open; the start `S` connects to whatever faces
    it. The loop through the start is found by a worklist walk, and the
    farthest point along it is half the loop's length away. */
module Day10 {
  import opened Common

  /** A cell of the map, with its position and open sides. */
  datatype Pipe = Pipe(symbol: char, start: bool, x: int, y: int, n: bool, e: bool, s: bool, w: bool)

  type PipeMap = map<(int, int), Pipe>

  // ---------------------------------------------------------------------
  // Parsing

  /** The characters open to the north, east, south and west. */
  const North: seq<char> := ['|', 'L', 'J']
  const East: seq<char> := ['-', 'F', 'L']
  const South: seq<char> := ['|', '7', 'F']
  const West: seq<char> := ['-', 'J', '7']

  /** The pipe for character `c` at column `x` of row `y`. */
  function PipeAt(c: char, x: int, y: int): Pipe {
    Pipe(c, c == 'S', x, y, c in North, c in East, c in South, c in West)
  }

  function CountTrue(a: bool, b: bool, c: bool, d: bool): nat {
    (if a then 1 else 0) + (if b then 1 else 0) + (if c then 1 else 0) + (if d then 1 else 0)
  }

  /** Each of the six pipe characters is open on exactly two sides, which
      face each other across the pipe or meet at a corner; the start and
      every other character are open on none. */
  lemma PipeSides(c: char, x: int, y: int)
    ensures var p := PipeAt(c, x, y);
      CountTrue(p.n, p.e, p.s, p.w) == if c in ['|', '-', 'L', 'J', '7', 'F'] then 2 else 0
    ensures PipeAt(c, x, y).start <==> c == 'S'
    ensures c == '|' ==> PipeAt(c, x, y).n && PipeAt(c, x, y).s
    ensures c == '-' ==> PipeAt(c, x, y).e && PipeAt(c, x, y).w
    ensures c == 'L' ==> PipeAt(c, x, y).n && PipeAt(c, x, y).e
    ensures c == 'J' ==> PipeAt(c, x, y).n && PipeAt(c, x, y).w
    ensures c == '7' ==> PipeAt(c, x, y).s && PipeAt(c, x, y).w
    ensures c == 'F' ==> PipeAt(c, x, y).e && PipeAt(c, x, y).s
  {
  }

  /** The pipes of one row, left to right. */
  function LinePipes(line: string, y: int): (r: seq<Pipe>)
    ensures |r| == |line|
  {
    seq(|line|, x requires 0 <= x < |line| => PipeAt(line[x], x, y))
  }

  /** The last start on a line, if the line has one. */
  function LineStart(line: string, y: int): (r: Option<Pipe>)
    ensures r.None? <==> 'S' !in line
    ensures r.Some? ==> exists x | 0 <= x < |line| :: line[x] == 'S' && r.value == PipeAt('S', x, y)
  {
    if line == [] then None
    else if line[|line| - 1] == 'S' then Some(PipeAt('S', |line| - 1, y))
    else
      var r := LineStart(line[..|line| - 1], y);
      assert line == line[..|line| - 1] + [line[|line| - 1]];
      if r.Some? then
        var x :| 0 <= x < |line| - 1 && line[..|line| - 1][x] == 'S' && r.value == PipeAt('S', x, y);
        assert line[x] == 'S';
        r
      else r
  }

  /** `parse_line`: the pipes of row `y`, and the last start among them. */
  method ParseLine(line: string, y: int) returns (pipes: seq<Pipe>, start: Option<Pipe>)
    ensures pipes == LinePipes(line, y)
    ensures start == LineStart(line, y)
  {
    pipes, start := [], None;
    for x := 0 to |line|
      invariant pipes == LinePipes(line[..x], y)
      invariant start == LineStart(line[..x], y)
    {
      var pipe := PipeAt(line[x], x, y);
      if pipe.start {
        start := Some(pipe);
      }
      pipes := pipes + [pipe];
      assert line[..x + 1][..x] == line[..x];
    }
    assert line[..|line|] == line;
  }

  // ---------------------------------------------------------------------
  // Connections

  datatype Cardinal = N | S | E | W

  /** The four directions, in the order they are tried, with the step
      each one takes. */
  const Cardinals: seq<(Cardinal, (int, int))> := [(N, (0, -1)), (S, (0, 1)), (W, (-1, 0)), (E, (1, 0))]

  /** The cell one step from `p` in direction `i` of `Cardinals`. */
  function Target(p: Pipe, i: nat): (t: (int, int))
    requires i < |Cardinals|
    ensures (t.0 == p.x && (t.1 == p.y + 1 || t.1 == p.y - 1)) || (t.1 == p.y && (t.0 == p.x + 1 || t.0 == p.x - 1))
  {
    (p.x + Cardinals[i].1.0, p.y + Cardinals[i].1.1)
  }

  /** `p` connects to `neighbour` lying in direction `d` when the
      neighbour is open on the side facing `p` and `p` is open towards it
      or is the start. */
  predicate Links(p: Pipe, d: Cardinal, neighbour: Pipe) {
    match d
    case N => neighbour.s && (p.start || p.n)
    case S => neighbour.n && (p.start || p.s)
    case E => neighbour.w && (p.start || p.e)
    case W => neighbour.e && (p.start || p.w)
  }

  /** The pipes `p` connects to. */
  function Connections(p: Pipe, m: PipeMap): set<Pipe> {
    set i | 0 <= i < |Cardinals| && Target(p, i) in m && Links(p, Cardinals[i].0, m[Target(p, i)]) :: m[Target(p, i)]
  }

  /** `get_connections`: each direction tried in turn. */
  method GetConnections(p: Pipe, m: PipeMap) returns (result: set<Pipe>)
    ensures result == Connections(p, m)
  {
    result := {};
    for i := 0 to |Cardinals|
      invariant result == set j | 0 <= j < i && Target(p, j) in m && Links(p, Cardinals[j].0, m[Target(p, j)]) :: m[Target(p, j)]
    {
      var target := Target(p, i);
      if target in m {
        var neighbour := m[target];
        if Links(p, Cardinals[i].0, neighbour) {
          result := result + {neighbour};
        }
      }
    }
  }

  /** A connection is a pipe of the map one orthogonal step away, open
      on the side facing `p`, with `p` open towards it or the start; and
      every such pipe is a connection. */
  lemma ConnectionsAre(p: Pipe, m: PipeMap, q: Pipe)
    ensures q in Connections(p, m) <==>
      exists i | 0 <= i < |Cardinals| :: Target(p, i) in m && m[Target(p, i)] == q && Links(p, Cardinals[i].0, q)
    ensures q in Connections(p, m) ==> q in m.Values
  {
  }

  /** Every pipe of the map sits at its own position. */
  predicate Positioned(m: PipeMap) {
    forall k | k in m :: (m[k].x, m[k].y) == k
  }

  /** A pipe that is not the start connects only to pipes that connect
      back to it: the neighbour is open on the facing side and the pipe
      itself is open towards the neighbour. */
  lemma ConnectionsMutual(p: Pipe, m: PipeMap, q: Pipe)
    requires Positioned(m)
    requires (p.x, p.y) in m && m[(p.x, p.y)] == p && !p.start
    requires q in Connections(p, m)
    ensures p in Connections(q, m)
  {
    ConnectionsAre(p, m, q);
    var i :| 0 <= i < |Cardinals| && Target(p, i) in m && m[Target(p, i)] == q && Links(p, Cardinals[i].0, q);
    assert (q.x, q.y) == Target(p, i);
    var back := if i == 0 then 1 else if i == 1 then 0 else if i == 2 then 3 else 2;
    assert Target(q, back) == (p.x, p.y);
    assert Links(q, Cardinals[back].0, p);
  }

  // ---------------------------------------------------------------------
  // The walk

  /** Step `i` of `path` follows a connection. */
  predicate Step(m: PipeMap, path: seq<Pipe>, i: nat)
    requires i + 1 < |path|
  {
    path[i + 1] in Connections(path[i], m)
  }

  /** `path` leads from `from` to `to` along connections. */
  predicate Walk(m: PipeMap, path: seq<Pipe>, from: Pipe, to: Pipe) {
    && |path| > 0 && path[0] == from && path[|path| - 1] == to
    && forall i | 0 <= i < |path| - 1 :: Step(m, path, i)
  }

  ghost predicate Reachable(m: PipeMap, from: Pipe, to: Pipe) {
    exists path :: Walk(m, path, from, to)
  }

  lemma WalkExtend(m: PipeMap, path: seq<Pipe>, from: Pipe, to: Pipe, next: Pipe)
    requires Walk(m, path, from, to) && next in Connections(to, m)
    ensures Walk(m, path + [next], from, next)
  {
    var path' := path + [next];
    forall i | 0 <= i < |path'| - 1 ensures Step(m, path', i) {
      if i < |path| - 1 {
        assert Step(m, path, i);
      }
    }
  }

  /** A set holding `from` and closed under connections holds every pipe
      reachable from `from`. */
  lemma {:induction false} ClosedHoldsReachable(m: PipeMap, seen: set<Pipe>, from: Pipe, path: seq<Pipe>, to: Pipe)
    requires from in seen
    requires forall p | p in seen :: Connections(p, m) <= seen
    requires Walk(m, path, from, to)
    ensures to in seen
    decreases |path|
  {
    if |path| > 1 {
      var front := path[..|path| - 1];
      var last := front[|front| - 1];
      assert Walk(m, front, from, last) by {
        forall i | 0 <= i < |front| - 1 ensures Step(m, front, i) {
          assert Step(m, path, i);
        }
      }
      ClosedHoldsReachable(m, seen, from, front, last);
      assert Step(m, path, |path| - 2);
    }
  }

  lemma SeenGrows(universe: set<Pipe>, seen: set<Pipe>, q: Pipe)
    requires q in universe && q !in seen
    ensures |universe - (seen + {q})| == |universe - seen| - 1
  {
    assert universe - seen == (universe - (seen + {q})) + {q};
  }

  /** What the walk keeps true throughout: the start is seen, everything
      seen is a pipe of the map or the start and has a walk from the start
      recorded for it, the worklist holds only pipes already seen, and every
      seen pipe was pushed exactly once. */
  ghost predicate Explored(m: PipeMap, start: Pipe, seen: set<Pipe>, stack: seq<Pipe>, paths: map<Pipe, seq<Pipe>>, pushes: seq<Pipe>) {
    && start in seen && seen <= m.Values + {start}
    && (forall i | 0 <= i < |stack| :: stack[i] in seen)
    && (forall p | p in seen :: p in paths && Walk(m, paths[p], start, p))
    && (forall i, j | 0 <= i < j < |pushes| :: pushes[i] != pushes[j])
    && (forall p :: p in pushes <==> p in seen)
  }

  /** Marking a connection of a seen pipe as seen, recording the walk to
      it and pushing it keeps the walk's invariant. */
  lemma ExploredPush(m: PipeMap, start: Pipe, seen: set<Pipe>, stack: seq<Pipe>, paths: map<Pipe, seq<Pipe>>,
                     pushes: seq<Pipe>, current: Pipe, pipe: Pipe)
    requires Explored(m, start, seen, stack, paths, pushes)
    requires current in seen && pipe in Connections(current, m) && pipe !in seen
    ensures pipe in m.Values + {start}
    ensures Explored(m, start, seen + {pipe}, [pipe] + stack, paths[pipe := paths[current] + [pipe]], pushes + [pipe])
  {
    ConnectionsAre(current, m, pipe);
    WalkExtend(m, paths[current], start, current, pipe);
    var stack', pushes' := [pipe] + stack, pushes + [pipe];
    assert forall i | 0 <= i < |stack| :: stack'[i + 1] == stack[i];
    assert forall i | 0 <= i < |pushes| :: pushes'[i] == pushes[i];
  }

  /** The inner loop of `get_max_pipe_distance`: every connection of
      `current` not yet seen is marked seen and pushed to the front of the
      worklist, in whatever order the set of connections hands them out. */
  method PushUnseen(m: PipeMap, start: Pipe, current: Pipe, neighbours: set<Pipe>, seen: set<Pipe>, stack: seq<Pipe>,
                    ghost paths: map<Pipe, seq<Pipe>>, ghost pushes: seq<Pipe>)
    returns (seen': set<Pipe>, stack': seq<Pipe>, ghost paths': map<Pipe, seq<Pipe>>, ghost pushes': seq<Pipe>)
    requires Explored(m, start, seen, stack, paths, pushes)
    requires current in seen && neighbours == Connections(current, m)
    ensures Explored(m, start, seen', stack', paths', pushes')
    ensures seen <= seen' && neighbours <= seen'
    ensures forall p | p in seen' && p !in seen :: p in stack'
    ensures forall p | p in stack :: p in stack'
    ensures 2 * |m.Values + {start} - seen'| + |stack'| <= 2 * |m.Values + {start} - seen| + |stack|
  {
    ghost var universe := m.Values + {start};
    seen', stack', paths', pushes' := seen, stack, paths, pushes;
    var remaining := neighbours;
    while remaining != {}
      invariant remaining <= neighbours
      invariant Explored(m, start, seen', stack', paths', pushes')
      invariant seen <= seen' && current in seen'
      invariant forall q | q in neighbours && q !in remaining :: q in seen'
      invariant forall p | p in seen' && p !in seen :: p in stack'
      invariant forall p | p in stack :: p in stack'
      invariant 2 * |universe - seen'| + |stack'| <= 2 * |universe - seen| + |stack|
      decreases remaining
    {
      var pipe :| pipe in remaining;
      remaining := remaining - {pipe};
      if pipe !in seen' {
        ExploredPush(m, start, seen', stack', paths', pushes', current, pipe);
        SeenGrows(universe, seen', pipe);
        paths' := paths'[pipe := paths'[current] + [pipe]];
        seen' := seen' + {pipe};
        pushes' := pushes' + [pipe];
        stack' := [pipe] + stack';
      }
    }
  }

  /** `get_max_pipe_distance`: a walk from the start that pops the front
      of a worklist and pushes to its front every connection not yet seen.
      What it has seen at the end is exactly what is reachable from the
      start; the answer is half of it. `pushes` lists every pipe put on the
      worklist, the start first: none twice. */
  method MaxPipeDistance(start: Pipe, m: PipeMap) returns (distance: nat, seen: set<Pipe>, ghost pushes: seq<Pipe>)
    ensures start in seen && distance == |seen| / 2
    ensures forall p :: p in seen <==> Reachable(m, start, p)
    ensures (forall i, j | 0 <= i < j < |pushes| :: pushes[i] != pushes[j]) && forall p :: p in pushes <==> p in seen
  {
    ghost var paths: map<Pipe, seq<Pipe>> := map[start := [start]];
    seen := {start};
    pushes := [start];
    var stack := [start];
    assert Walk(m, [start], start, start);
    while stack != []
      invariant Explored(m, start, seen, stack, paths, pushes)
      invariant forall p | p in seen :: p in stack || Connections(p, m) <= seen
      decreases 2 * |m.Values + {start} - seen| + |stack|
    {
      var current := stack[0];
      stack := stack[1..];
      var neighbours := GetConnections(current, m);
      seen, stack, paths, pushes := PushUnseen(m, start, current, neighbours, seen, stack, paths, pushes);
    }
    distance := |seen| / 2;
    forall p ensures p in seen <==> Reachable(m, start, p) {
      if p in seen {
        assert Walk(m, paths[p], start, p);
      }
      if Reachable(m, start, p) {
        var path :| Walk(m, path, start, p);
        ClosedHoldsReachable(m, seen, start, path, p);
      }
    }
  }

  // ---------------------------------------------------------------------
  // The whole map

  /** The pipes of every row, row by row. */
  function AllPipes(lines: seq<string>): seq<Pipe> {
    if lines == [] then []
    else AllPipes(lines[..|lines| - 1]) + LinePipes(lines[|lines| - 1], |lines| - 1)
  }

  /** The start of the last row that has one. */
  function LastStart(lines: seq<string>): (r: Option<Pipe>)
    ensures r.None? <==> forall y | 0 <= y < |lines| :: 'S' !in lines[y]
    ensures r.Some? ==> exists y, x | 0 <= y < |lines| && 0 <= x < |lines[y]| :: lines[y][x] == 'S' && r.value == PipeAt('S', x, y)
  {
    if lines == [] then None
    else
      var y := |lines| - 1;
      var here := LineStart(lines[y], y);
      if here.Some? then
        var x :| 0 <= x < |lines[y]| && lines[y][x] == 'S' && here.value == PipeAt('S', x, y);
        here
      else
        var r := LastStart(lines[..y]);
        if r.Some? then
          var y', x :| 0 <= y' < y && 0 <= x < |lines[..y][y']| && lines[..y][y'][x] == 'S' && r.value == PipeAt('S', x, y');
          assert lines[y'][x] == 'S';
          r
        else
          assert forall y' | 0 <= y' < y :: lines[y'] == lines[..y][y'];
          r
  }

  /** The map from position to pipe, each pipe entered in turn. */
  function MapOf(pipes: seq<Pipe>): PipeMap {
    if pipes == [] then map[]
    else
      var p := pipes[|pipes| - 1];
      MapOf(pipes[..|pipes| - 1])[(p.x, p.y) := p]
  }

  /** Entering `a` and then `b` leaves each position holding its pipe from
      `b` if `b` has one there, and otherwise its pipe from `a`. */
  lemma {:induction false} MapOfConcat(a: seq<Pipe>, b: seq<Pipe>, k: (int, int))
    ensures k in MapOf(a + b) <==> k in MapOf(a) || k in MapOf(b)
    ensures k in MapOf(a + b) ==> MapOf(a + b)[k] == if k in MapOf(b) then MapOf(b)[k] else MapOf(a)[k]
    decreases |b|
  {
    if b == [] {
      assert a + b == a;
    } else {
      var front := b[..|b| - 1];
      assert (a + b)[..|a + b| - 1] == a + front;
      MapOfConcat(a, front, k);
    }
  }

  /** Row `y` alone fills exactly its own cells, each with its pipe. */
  lemma {:induction false} MapOfLine(line: string, y: int, k: (int, int))
    ensures k in MapOf(LinePipes(line, y)) <==> k.1 == y && 0 <= k.0 < |line|
    ensures k in MapOf(LinePipes(line, y)) ==> MapOf(LinePipes(line, y))[k] == PipeAt(line[k.0], k.0, y)
  {
    if line != [] {
      var n := |line| - 1;
      assert LinePipes(line, y)[..n] == LinePipes(line[..n], y);
      MapOfLine(line[..n], y, k);
    }
  }

  /** No two cells of the map share a position, so the map holds every
      cell of the grid, with its own pipe, and nothing else. */
  lemma {:induction false} MapOfGrid(lines: seq<string>, k: (int, int))
    ensures k in MapOf(AllPipes(lines)) <==> 0 <= k.1 < |lines| && 0 <= k.0 < |lines[k.1]|
    ensures k in MapOf(AllPipes(lines)) ==> MapOf(AllPipes(lines))[k] == PipeAt(lines[k.1][k.0], k.0, k.1)
  {
    if lines != [] {
      var y := |lines| - 1;
      MapOfConcat(AllPipes(lines[..y]), LinePipes(lines[y], y), k);
      MapOfLine(lines[y], y, k);
      MapOfGrid(lines[..y], k);
    }
  }

  /** The map built from the input puts every pipe at its own position. */
  lemma GridPositioned(lines: seq<string>)
    ensures Positioned(MapOf(AllPipes(lines)))
  {
    forall k | k in MapOf(AllPipes(lines)) ensures (MapOf(AllPipes(lines))[k].x, MapOf(AllPipes(lines))[k].y) == k {
      MapOfGrid(lines, k);
    }
  }

  /** The lines of the map, parsed one after the other: all their pipes
      in order, and the last start found. */
  method ParseLines(lines: seq<string>) returns (pipes: seq<Pipe>, start: Option<Pipe>)
    ensures pipes == AllPipes(lines) && start == LastStart(lines)
  {
    start, pipes := None, [];
    for y := 0 to |lines|
      invariant pipes == AllPipes(lines[..y])
      invariant start == LastStart(lines[..y])
    {
      var linePipes, lineStart := ParseLine(lines[y], y);
      if lineStart.Some? {
        start := lineStart;
      }
      pipes := pipes + linePipes;
      assert lines[..y + 1][..y] == lines[..y];
    }
    assert lines[..|lines|] == lines;
  }

  /** The pipes inserted one by one into a hash map keyed by position. */
  method BuildMap(pipes: seq<Pipe>) returns (m: PipeMap)
    ensures m == MapOf(pipes)
  {
    m := map[];
    for i := 0 to |pipes|
      invariant m == MapOf(pipes[..i])
    {
      var pipe := pipes[i];
      m := m[(pipe.x, pipe.y) := pipe];
      assert pipes[..i + 1][..i] == pipes[..i];
    }
    assert pipes[..|pipes|] == pipes;
  }

  /** `exec`: the first part is the farthest distance along the loop
      through the start (zero without a start); the second part is not
      computed and is always zero. `around` is the set the walk saw. */
  method Exec(source: string) returns (r: (nat, nat), ghost around: set<Pipe>)
    ensures var lines := Split(source, "\n");
      && r.1 == 0
      && (LastStart(lines).None? ==> r.0 == 0)
      && (LastStart(lines).Some? ==>
            r.0 == |around| / 2 && forall p :: p in around <==> Reachable(MapOf(AllPipes(lines)), LastStart(lines).value, p))
  {
    var lines := Split(source, "\n");
    var pipes, start := ParseLines(lines);
    var m := BuildMap(pipes);
    around := {};
    var partA := 0;
    if start.Some? {
      var distance, seen, _ := MaxPipeDistance(start.value, m);
      partA, around := distance, seen;
    }
    r := (partA, 0);
  }

  // ---------------------------------------------------------------------
  // Examples

  /** `F` is open to the east and the south only. */
  lemma ExamplePipeF()
    ensures PipeAt('F', 0, 0) == Pipe('F', false, 0, 0, false, true, true, false)
  {
  }

  /** Three horizontal pipes in a row and one below the middle, open to the
      north and east: the middle pipe connects to its two horizontal
      neighbours only. */
  lemma ExampleConnections()
    ensures var left := Pipe('x', false, 0, 0, false, true, false, true);
      var middle := Pipe('x', false, 1, 0, false, true, false, true);
      var right := Pipe('x', false, 2, 0, false, true, false, true);
      var below := Pipe('x', false, 1, 1, true, true, false, false);
      Connections(middle, map[(0, 0) := left, (1, 0) := middle, (2, 0) := right, (1, 1) := below]) == {left, right}
  {
    var left := Pipe('x', false, 0, 0, false, true, false, true);
    var middle := Pipe('x', false, 1, 0, false, true, false, true);
    var right := Pipe('x', false, 2, 0, false, true, false, true);
    var below := Pipe('x', false, 1, 1, true, true, false, false);
    var m := map[(0, 0) := left, (1, 0) := middle, (2, 0) := right, (1, 1) := below];
    assert Target(middle, 2) == (0, 0) && Target(middle, 3) == (2, 0);
    assert left in Connections(middle, m);
    assert right in Connections(middle, m);
  }

  // ---------------------------------------------------------------------
  // The sample grids

  /** A cell of the grid: its column and its row. */
  type Cell = (int, int)

  /** Cell `k` (column, row) lies on grid `g`. */
  predicate InGrid(g: seq<string>, k: Cell) {
    0 <= k.1 < |g| && 0 <= k.0 < |g[k.1]|
  }

  /** The pipe the map holds for a cell of the grid. */
  function CellPipe(g: seq<string>, k: Cell): Pipe
    requires InGrid(g, k)
  {
    PipeAt(g[k.1][k.0], k.0, k.1)
  }

  /** The pipes of the given cells. */
  function PipesOf(g: seq<string>, cells: seq<Cell>): set<Pipe> {
    set k | k in cells && InGrid(g, k) :: CellPipe(g, k)
  }

  /** Direction `i` of the start cell `k`, when it links, leads to one of
      `cells`. */
  predicate LinksInto(g: seq<string>, k: Cell, i: nat, cells: seq<Cell>)
    requires InGrid(g, k) && i < |Cardinals|
  {
    var p := CellPipe(g, k);
    var t := Target(p, i);
    InGrid(g, t) && Links(p, Cardinals[i].0, CellPipe(g, t)) ==> t in cells
  }

  /** Every open side of the pipe in cell `k` faces cell `cells[a]` or
      cell `cells[b]`. */
  predicate OpenInto(g: seq<string>, k: Cell, cells: seq<Cell>, a: nat, b: nat)
    requires InGrid(g, k) && a < |cells| && b < |cells|
  {
    var p := CellPipe(g, k);
    && (p.n ==> (k.0, k.1 - 1) == cells[a] || (k.0, k.1 - 1) == cells[b])
    && (p.s ==> (k.0, k.1 + 1) == cells[a] || (k.0, k.1 + 1) == cells[b])
    && (p.w ==> (k.0 - 1, k.1) == cells[a] || (k.0 - 1, k.1) == cells[b])
    && (p.e ==> (k.0 + 1, k.1) == cells[a] || (k.0 + 1, k.1) == cells[b])
  }

  /** The first cell is a start linking only to `cells`. */
  predicate StartInto(g: seq<string>, cells: seq<Cell>)
    requires |cells| > 0
  {
    && InGrid(g, cells[0])
    && LinksInto(g, cells[0], 0, cells) && LinksInto(g, cells[0], 1, cells)
    && LinksInto(g, cells[0], 2, cells) && LinksInto(g, cells[0], 3, cells)
  }

  /** The cells from `lo` up to `n` lie on the grid, none but the first
      cell of all is a start, and their pipes open only towards cells of
      `cells`: those of cell `j` face the cells `sides[j]` names. */
  predicate ClosedFrom(g: seq<string>, cells: seq<Cell>, sides: seq<(nat, nat)>, lo: nat, n: nat)
    requires n <= |cells| == |sides|
  {
    n <= lo ||
    (&& InGrid(g, cells[n - 1]) && (n == 1 || !CellPipe(g, cells[n - 1]).start)
     && sides[n - 1].0 < |cells| && sides[n - 1].1 < |cells|
     && OpenInto(g, cells[n - 1], cells, sides[n - 1].0, sides[n - 1].1)
     && ClosedFrom(g, cells, sides, lo, n - 1))
  }

  /** Two adjacent closed ranges make one. */
  lemma {:induction false} ClosedJoin(g: seq<string>, cells: seq<Cell>, sides: seq<(nat, nat)>, lo: nat, n: nat)
    requires lo <= n <= |cells| == |sides| && ClosedFrom(g, cells, sides, 0, lo) && ClosedFrom(g, cells, sides, lo, n)
    ensures ClosedFrom(g, cells, sides, 0, n)
  {
    if n > lo {
      ClosedJoin(g, cells, sides, lo, n - 1);
    }
  }

  /** The cells from `lo` up to `n` lie on the grid, and each but the
      first cell of all is linked to from an earlier cell: `steps[j]` names
      that cell and the direction of the link. */
  predicate SpannedFrom(g: seq<string>, cells: seq<Cell>, steps: seq<(nat, nat)>, lo: nat, n: nat)
    requires n <= |cells| == |steps|
  {
    n <= lo ||
    (&& InGrid(g, cells[n - 1])
     && (n == 1 ||
         var (a, i) := steps[n - 1];
         && a < n - 1 && i < |Cardinals| && InGrid(g, cells[a])
         && Target(CellPipe(g, cells[a]), i) == cells[n - 1]
         && Links(CellPipe(g, cells[a]), Cardinals[i].0, CellPipe(g, cells[n - 1])))
     && SpannedFrom(g, cells, steps, lo, n - 1))
  }

  /** Two adjacent spanned ranges make one. */
  lemma {:induction false} SpannedJoin(g: seq<string>, cells: seq<Cell>, steps: seq<(nat, nat)>, lo: nat, n: nat)
    requires lo <= n <= |cells| == |steps|
    requires SpannedFrom(g, cells, steps, 0, lo) && SpannedFrom(g, cells, steps, lo, n)
    ensures SpannedFrom(g, cells, steps, 0, n)
  {
    if n > lo {
      SpannedJoin(g, cells, steps, lo, n - 1);
    }
  }

  /** Cell `k` is none of the first `j` cells. */
  predicate NotBefore(cells: seq<Cell>, k: nat, j: nat)
    requires k < |cells| && j <= |cells|
  {
    j == 0 || (cells[j - 1] != cells[k] && NotBefore(cells, k, j - 1))
  }

  /** No cell from `lo` up to `n` repeats an earlier one. */
  predicate DistinctFrom(cells: seq<Cell>, lo: nat, n: nat)
    requires n <= |cells|
  {
    n <= lo || (NotBefore(cells, n - 1, n - 1) && DistinctFrom(cells, lo, n - 1))
  }

  /** Two adjacent distinct ranges make one. */
  lemma {:induction false} DistinctJoin(cells: seq<Cell>, lo: nat, n: nat)
    requires lo <= n <= |cells| && DistinctFrom(cells, 0, lo) && DistinctFrom(cells, lo, n)
    ensures DistinctFrom(cells, 0, n)
  {
    if n > lo {
      DistinctJoin(cells, lo, n - 1);
    }
  }

  /** A cell that is none of the first `j` is not among them. */
  lemma {:induction false} NotBeforeIn(cells: seq<Cell>, k: nat, j: nat)
    requires k < |cells| && j <= |cells| && NotBefore(cells, k, j)
    ensures cells[k] !in cells[..j]
  {
    if j > 0 {
      NotBeforeIn(cells, k, j - 1);
      assert cells[..j] == cells[..j - 1] + [cells[j - 1]];
    }
  }

  /** What a closed range says of one of its cells. */
  lemma {:induction false} ClosedAt(g: seq<string>, cells: seq<Cell>, sides: seq<(nat, nat)>, n: nat, j: nat)
    requires n <= |cells| == |sides| && ClosedFrom(g, cells, sides, 0, n) && j < n
    ensures InGrid(g, cells[j]) && sides[j].0 < |cells| && sides[j].1 < |cells|
    ensures OpenInto(g, cells[j], cells, sides[j].0, sides[j].1)
    ensures j > 0 ==> !CellPipe(g, cells[j]).start
  {
    if j < n - 1 {
      ClosedAt(g, cells, sides, n - 1, j);
    }
  }

  /** What a spanned range says of one of its cells. */
  lemma {:induction false} SpannedAt(g: seq<string>, cells: seq<Cell>, steps: seq<(nat, nat)>, n: nat, j: nat)
    requires n <= |cells| == |steps| && SpannedFrom(g, cells, steps, 0, n) && j < n
    ensures InGrid(g, cells[j])
    ensures j > 0 ==>
      var (a, i) := steps[j];
      && a < j && i < |Cardinals| && InGrid(g, cells[a])
      && Target(CellPipe(g, cells[a]), i) == cells[j]
      && Links(CellPipe(g, cells[a]), Cardinals[i].0, CellPipe(g, cells[j]))
  {
    if j < n - 1 {
      SpannedAt(g, cells, steps, n - 1, j);
    }
  }

  /** A link from one of the closed cells leads to one of them. */
  lemma ClosedLink(g: seq<string>, cells: seq<Cell>, sides: seq<(nat, nat)>, j: nat, i: nat)
    requires 0 < |cells| == |sides| && StartInto(g, cells) && ClosedFrom(g, cells, sides, 0, |cells|) && j < |cells| && i < |Cardinals|
    ensures InGrid(g, cells[j])
    ensures var t := Target(CellPipe(g, cells[j]), i);
      InGrid(g, t) && Links(CellPipe(g, cells[j]), Cardinals[i].0, CellPipe(g, t)) ==> t in cells
  {
    ClosedAt(g, cells, sides, |cells|, j);
    if j == 0 {
      assert LinksInto(g, cells[0], i, cells);
    }
  }

  /** A connection of the pipe of one of `cells` is the pipe of one of
      `cells`, when they are closed. */
  lemma ClosedPipe(g: seq<string>, cells: seq<Cell>, sides: seq<(nat, nat)>, j: nat, q: Pipe)
    requires 0 < |cells| == |sides| && StartInto(g, cells) && ClosedFrom(g, cells, sides, 0, |cells|) && j < |cells|
    requires InGrid(g, cells[j]) && q in Connections(CellPipe(g, cells[j]), MapOf(AllPipes(g)))
    ensures q in PipesOf(g, cells)
  {
    var m, p := MapOf(AllPipes(g)), CellPipe(g, cells[j]);
    ConnectionsAre(p, m, q);
    var i :| 0 <= i < |Cardinals| && Target(p, i) in m && m[Target(p, i)] == q && Links(p, Cardinals[i].0, q);
    MapOfGrid(g, Target(p, i));
    ClosedLink(g, cells, sides, j, i);
  }

  /** Every cell spanned from the first is reachable from it. */
  lemma {:induction false} SpannedReachable(g: seq<string>, cells: seq<Cell>, steps: seq<(nat, nat)>, j: nat)
    requires |cells| == |steps| && SpannedFrom(g, cells, steps, 0, |cells|) && j < |cells|
    ensures InGrid(g, cells[0]) && InGrid(g, cells[j])
    ensures Reachable(MapOf(AllPipes(g)), CellPipe(g, cells[0]), CellPipe(g, cells[j]))
    decreases j
  {
    var m := MapOf(AllPipes(g));
    SpannedAt(g, cells, steps, |cells|, 0);
    SpannedAt(g, cells, steps, |cells|, j);
    var start := CellPipe(g, cells[0]);
    if j == 0 {
      assert Walk(m, [start], start, start);
    } else {
      var (a, i) := steps[j];
      SpannedReachable(g, cells, steps, a);
      var p, q := CellPipe(g, cells[a]), CellPipe(g, cells[j]);
      MapOfGrid(g, cells[j]);
      assert q in Connections(p, m);
      var path :| Walk(m, path, start, p);
      WalkExtend(m, path, start, p, q);
    }
  }

  /** Distinct cells have distinct pipes. */
  lemma {:induction false} PipesCount(g: seq<string>, cells: seq<Cell>, n: nat)
    requires n <= |cells| && DistinctFrom(cells, 0, n) && forall j | 0 <= j < n :: InGrid(g, cells[j])
    ensures |PipesOf(g, cells[..n])| == n
  {
    if n > 0 {
      var front, k := cells[..n - 1], cells[n - 1];
      assert cells[..n - 1][..n - 1] == front;
      PipesCount(g, cells, n - 1);
      NotBeforeIn(cells, n - 1, n - 1);
      assert cells[..n] == front + [k];
      assert PipesOf(g, cells[..n]) == PipesOf(g, front) + {CellPipe(g, k)};
      assert CellPipe(g, k) !in PipesOf(g, front);
    }
  }

  /** Closed cells hold every connection of their pipes. */
  lemma LoopClosed(g: seq<string>, cells: seq<Cell>, sides: seq<(nat, nat)>)
    requires 0 < |cells| == |sides| && StartInto(g, cells) && ClosedFrom(g, cells, sides, 0, |cells|)
    ensures forall p | p in PipesOf(g, cells) :: Connections(p, MapOf(AllPipes(g))) <= PipesOf(g, cells)
  {
    forall p, q | p in PipesOf(g, cells) && q in Connections(p, MapOf(AllPipes(g))) ensures q in PipesOf(g, cells) {
      var j :| 0 <= j < |cells| && InGrid(g, cells[j]) && CellPipe(g, cells[j]) == p;
      ClosedPipe(g, cells, sides, j, q);
    }
  }

  /** Distinct cells of the grid have as many pipes as there are cells. */
  lemma LoopCount(g: seq<string>, cells: seq<Cell>, sides: seq<(nat, nat)>)
    requires |cells| == |sides| && ClosedFrom(g, cells, sides, 0, |cells|) && DistinctFrom(cells, 0, |cells|)
    ensures |PipesOf(g, cells)| == |cells|
  {
    forall j | 0 <= j < |cells| ensures InGrid(g, cells[j]) {
      ClosedAt(g, cells, sides, |cells|, j);
    }
    PipesCount(g, cells, |cells|);
    assert cells[..|cells|] == cells;
  }

  /** Cells that are distinct, link only among themselves and are all
      linked to, step by step, from the first are exactly the pipes
      reachable from the first; there are as many of them as cells. */
  lemma GridLoop(g: seq<string>, cells: seq<Cell>, steps: seq<(nat, nat)>, sides: seq<(nat, nat)>)
    requires 0 < |cells| == |steps| == |sides|
    requires StartInto(g, cells) && ClosedFrom(g, cells, sides, 0, |cells|)
    requires SpannedFrom(g, cells, steps, 0, |cells|) && DistinctFrom(cells, 0, |cells|)
    ensures InGrid(g, cells[0])
    ensures forall q :: Reachable(MapOf(AllPipes(g)), CellPipe(g, cells[0]), q) <==> q in PipesOf(g, cells)
    ensures |PipesOf(g, cells)| == |cells|
  {
    var m := MapOf(AllPipes(g));
    SpannedReachable(g, cells, steps, 0);
    var start := CellPipe(g, cells[0]);
    LoopClosed(g, cells, sides);
    forall q ensures Reachable(m, start, q) <==> q in PipesOf(g, cells) {
      if q in PipesOf(g, cells) {
        var j :| 0 <= j < |cells| && InGrid(g, cells[j]) && CellPipe(g, cells[j]) == q;
        SpannedReachable(g, cells, steps, j);
      }
      if Reachable(m, start, q) {
        var path :| Walk(m, path, start, q);
        ClosedHoldsReachable(m, PipesOf(g, cells), start, path, q);
      }
    }
    LoopCount(g, cells, sides);
  }

  /** The first sample grid of the source's tests, row by row, and its
      loop: the cells in the order a breadth-first walk from the start
      meets them, the two cells each pipe opens towards, and the cell and
      direction each cell is first linked from. */
  const SampleOne: seq<string> := ["-L|F7", "7S-7|", "L|7||", "-L-J|", "L|-JF"]

  const LoopOneCells: seq<Cell> := [(1, 1), (1, 2), (2, 1), (1, 3), (3, 1), (2, 3), (3, 2), (3, 3)]
  const LoopOneSides: seq<(nat, nat)> := [(0, 0), (0, 3), (0, 4), (1, 5), (6, 2), (3, 7), (4, 7), (6, 5)]
  const LoopOneSteps: seq<(nat, nat)> := [(0, 0), (0, 1), (0, 3), (1, 1), (2, 3), (3, 3), (4, 1), (5, 3)]

  // The checks, evaluated on the first sample.
  lemma SampleOneStart()
    ensures StartInto(SampleOne, LoopOneCells)
  {
  }

  lemma SampleOneClosed()
    ensures ClosedFrom(SampleOne, LoopOneCells, LoopOneSides, 0, 8)
  {
  }

  lemma SampleOneSpanned()
    ensures SpannedFrom(SampleOne, LoopOneCells, LoopOneSteps, 0, 8)
  {
  }

  lemma SampleOneDistinct()
    ensures DistinctFrom(LoopOneCells, 0, 8)
  {
  }

  /** The pipes reachable from the start of the first sample are the
      eight of its loop. */
  lemma SampleOneLoop()
    ensures forall q :: Reachable(MapOf(AllPipes(SampleOne)), PipeAt('S', 1, 1), q) <==> q in PipesOf(SampleOne, LoopOneCells)
    ensures |PipesOf(SampleOne, LoopOneCells)| == 8
  {
    SampleOneStart();
    SampleOneClosed();
    SampleOneSpanned();
    SampleOneDistinct();
    GridLoop(SampleOne, LoopOneCells, LoopOneSteps, LoopOneSides);
  }

  /** The second sample grid and its loop, laid out as the first. */
  const SampleTwo: seq<string> := ["7-F7-", ".FJ|7", "SJLL7", "|F--J", "LJ.LJ"]
  const LoopTwoCells: seq<Cell> := [(0, 2), (0, 3), (1, 2), (0, 4), (1, 1), (1, 4), (2, 1), (1, 3),
                                    (2, 0), (2, 3), (3, 0), (3, 3), (3, 1), (4, 3), (3, 2), (4, 2)]
  const LoopTwoSides: seq<(nat, nat)> := [(0, 0), (0, 3), (4, 0), (1, 5), (2, 6), (7, 3), (8, 4), (5, 9),
                                          (6, 10), (7, 11), (12, 8), (9, 13), (10, 14), (15, 11), (12, 15), (13, 14)]
  const LoopTwoSteps: seq<(nat, nat)> := [(0, 0), (0, 1), (0, 3), (1, 1), (2, 0), (3, 3), (4, 3), (5, 0),
                                          (6, 0), (7, 3), (8, 3), (9, 3), (10, 1), (11, 3), (12, 1), (13, 0)]

  // The checks, evaluated on the second sample, range by range.
  lemma SampleTwoStart()
    ensures StartInto(SampleTwo, LoopTwoCells)
  {
  }

  lemma SampleTwoClosedLow()
    ensures ClosedFrom(SampleTwo, LoopTwoCells, LoopTwoSides, 0, 8)
  {
  }

  lemma SampleTwoClosedHigh()
    ensures ClosedFrom(SampleTwo, LoopTwoCells, LoopTwoSides, 8, 16)
  {
  }

  lemma SampleTwoSpannedLow()
    ensures SpannedFrom(SampleTwo, LoopTwoCells, LoopTwoSteps, 0, 8)
  {
  }

  lemma SampleTwoSpannedHigh()
    ensures SpannedFrom(SampleTwo, LoopTwoCells, LoopTwoSteps, 8, 16)
  {
  }

  lemma SampleTwoDistinctLow()
    ensures DistinctFrom(LoopTwoCells, 0, 8)
  {
  }

  lemma SampleTwoDistinctMid()
    ensures DistinctFrom(LoopTwoCells, 8, 12)
  {
    assert NotBefore(LoopTwoCells, 8, 8) && NotBefore(LoopTwoCells, 9, 9);
    assert NotBefore(LoopTwoCells, 10, 10) && NotBefore(LoopTwoCells, 11, 11);
  }

  lemma SampleTwoDistinctHigh()
    ensures DistinctFrom(LoopTwoCells, 12, 16)
  {
    assert NotBefore(LoopTwoCells, 12, 6) && NotBefore(LoopTwoCells, 12, 12);
    assert NotBefore(LoopTwoCells, 13, 6) && NotBefore(LoopTwoCells, 13, 13);
    assert NotBefore(LoopTwoCells, 14, 7) && NotBefore(LoopTwoCells, 14, 14);
    assert NotBefore(LoopTwoCells, 15, 7) && NotBefore(LoopTwoCells, 15, 15);
  }

  /** The pipes reachable from the start of the second sample are the
      sixteen of its loop. */
  lemma SampleTwoLoop()
    ensures forall q :: Reachable(MapOf(AllPipes(SampleTwo)), PipeAt('S', 0, 2), q) <==> q in PipesOf(SampleTwo, LoopTwoCells)
    ensures |PipesOf(SampleTwo, LoopTwoCells)| == 16
  {
    SampleTwoStart();
    SampleTwoClosedLow();
    SampleTwoClosedHigh();
    ClosedJoin(SampleTwo, LoopTwoCells, LoopTwoSides, 8, 16);
    SampleTwoSpannedLow();
    SampleTwoSpannedHigh();
    SpannedJoin(SampleTwo, LoopTwoCells, LoopTwoSteps, 8, 16);
    SampleTwoDistinctLow();
    SampleTwoDistinctMid();
    SampleTwoDistinctHigh();
    DistinctJoin(LoopTwoCells, 8, 12);
    DistinctJoin(LoopTwoCells, 12, 16);
    GridLoop(SampleTwo, LoopTwoCells, LoopTwoSteps, LoopTwoSides);
  }

  /** The first sample's source splits into its five rows. */
  lemma SampleOneLines()
    ensures Split("-L|F7\n7S-7|\nL|7||\n-L-J|\nL|-JF", "\n") == SampleOne
  {
    assert "-L|F7\n7S-7|\nL|7||\n-L-J|\nL|-JF" == JoinLines(SampleOne);
    SplitJoinLines(SampleOne);
  }

  /** The only start of the first sample is in column 1 of row 1. */
  lemma SampleOneStartCell()
    ensures LastStart(SampleOne) == Some(PipeAt('S', 1, 1))
  {
    assert forall y, x | 0 <= y < |SampleOne| && 0 <= x < |SampleOne[y]| && SampleOne[y][x] == 'S' :: y == 1 && x == 1;
    assert SampleOne[1][1] == 'S';
  }

  /** Half the loop of the first sample is 4. */
  lemma SampleOneAnswer(around: set<Pipe>)
    requires forall p :: p in around <==> Reachable(MapOf(AllPipes(SampleOne)), PipeAt('S', 1, 1), p)
    ensures |around| / 2 == 4
  {
    SampleOneLoop();
    assert around == PipesOf(SampleOne, LoopOneCells);
  }

  /** `test_sample_1`: the farthest point of the first sample's loop is
      4 steps from the start. */
  method ExampleSampleOne() returns (r: (nat, nat))
    ensures r == (4, 0)
  {
    var source := "-L|F7\n7S-7|\nL|7||\n-L-J|\nL|-JF";
    SampleOneLines();
    SampleOneStartCell();
    ghost var around;
    r, around := Exec(source);
    SampleOneAnswer(around);
  }

  /** The second sample's source splits into its five rows. */
  lemma SampleTwoLines()
    ensures Split("7-F7-\n.FJ|7\nSJLL7\n|F--J\nLJ.LJ", "\n") == SampleTwo
  {
    assert "7-F7-\n.FJ|7\nSJLL7\n|F--J\nLJ.LJ" == JoinLines(SampleTwo);
    SplitJoinLines(SampleTwo);
  }

  /** The only start of the second sample is in column 0 of row 2. */
  lemma SampleTwoStartCell()
    ensures LastStart(SampleTwo) == Some(PipeAt('S', 0, 2))
  {
    assert forall y, x | 0 <= y < |SampleTwo| && 0 <= x < |SampleTwo[y]| && SampleTwo[y][x] == 'S' :: y == 2 && x == 0;
    assert SampleTwo[2][0] == 'S';
  }

  /** Half the loop of the second sample is 8. */
  lemma SampleTwoAnswer(around: set<Pipe>)
    requires forall p :: p in around <==> Reachable(MapOf(AllPipes(SampleTwo)), PipeAt('S', 0, 2), p)
    ensures |around| / 2 == 8
  {
    SampleTwoLoop();
    assert around == PipesOf(SampleTwo, LoopTwoCells);
  }

  /** `test_sample_2`: the farthest point of the second sample's loop is
      8 steps from the start. */
  method ExampleSampleTwo() returns (r: (nat, nat))
    ensures r == (8, 0)
  {
    var source := "7-F7-\n.FJ|7\nSJLL7\n|F--J\nLJ.LJ";
    SampleTwoLines();
    SampleTwoStartCell();
    ghost var around;
    r, around := Exec(source);
    SampleTwoAnswer(around);
  }
}
