/** Desert map: a network of nodes, each with a left and a right target, is
    walked by repeating a list of left/right instructions. The first answer
    counts the moves from `AAA` to `ZZZ`; the second walks from every node
    whose name ends in `A` to one ending in `Z`, and combines the step counts
    with a least common multiple. */
module Day8 {
  import opened Common

  type Name = string
  /** Node name to its (left, right) targets. */
  type Nodes = map<Name, (Name, Name)>

  predicate EndsWith(s: string, suffix: string) {
    |suffix| <= |s| && s[|s| - |suffix|..] == suffix
  }

  // ---------------------------------------------------------------------
  // Walking the network

  /** One move: instruction 0 takes the left target, any other the right one. */
  function Move(targets: (Name, Name), instruction: nat): Name {
    if instruction == 0 then targets.0 else targets.1
  }

  /** Where the walk from `start` is after `k` moves, the instructions being
      used cyclically; `None` once it has stood on a node with no entry. */
  function Walk(start: Name, nodes: Nodes, path: seq<nat>, k: nat): Option<Name>
    requires |path| > 0
  {
    if k == 0 then Some(start)
    else match Walk(start, nodes, path, k - 1)
      case None => None
      case Some(n) => if n in nodes then Some(Move(nodes[n], path[(k - 1) % |path|])) else None
  }

  /** After `k` moves the walk stands on a node whose name ends with `end`. */
  predicate Arrives(start: Name, end: string, nodes: Nodes, path: seq<nat>, k: nat)
    requires |path| > 0
  {
    Walk(start, nodes, path, k).Some? && EndsWith(Walk(start, nodes, path, k).value, end)
  }

  /** `k` is the first positive number of moves after which the walk arrives. */
  predicate FirstArrival(start: Name, end: string, nodes: Nodes, path: seq<nat>, k: nat)
    requires |path| > 0
  {
    1 <= k && Arrives(start, end, nodes, path, k) &&
    forall j | 1 <= j < k :: !Arrives(start, end, nodes, path, j)
  }

  lemma FirstArrivalUnique(start: Name, end: string, nodes: Nodes, path: seq<nat>, k1: nat, k2: nat)
    requires |path| > 0
    requires FirstArrival(start, end, nodes, path, k1) && FirstArrival(start, end, nodes, path, k2)
    ensures k1 == k2
  {
  }

  /** Once the walk has failed it stays failed. */
  lemma {:induction false} WalkStuck(start: Name, nodes: Nodes, path: seq<nat>, j: nat, k: nat)
    requires |path| > 0 && j <= k
    requires Walk(start, nodes, path, j).None?
    ensures Walk(start, nodes, path, k).None?
    decreases k - j
  {
    if j < k {
      WalkStuck(start, nodes, path, j + 1, k);
    }
  }

  /** No walk of 1 to `fuel` moves from `start` arrives. */
  predicate Stuck(start: Name, end: string, nodes: Nodes, path: seq<nat>, fuel: nat)
    requires |path| > 0
  {
    forall k | 1 <= k <= fuel :: !Arrives(start, end, nodes, path, k)
  }

  /** `calc_steps`: moves from `start` until a node whose name ends with
      `end` is reached (at least one move is made). `None` when there are no
      instructions, when the walk stands on a node with no entry, or when
      `fuel` moves did not arrive. */
  method CalcSteps(start: Name, end: string, nodes: Nodes, path: seq<nat>, fuel: nat) returns (r: Option<nat>)
    ensures path == [] ==> r.None?
    ensures r.Some? ==> |path| > 0 && r.value <= fuel && FirstArrival(start, end, nodes, path, r.value)
    ensures r.None? && |path| > 0 ==> Stuck(start, end, nodes, path, fuel)
  {
    if path == [] {
      return None;
    }
    var current := start;
    var steps := 0;
    while steps < fuel
      invariant steps <= fuel
      invariant Walk(start, nodes, path, steps) == Some(current)
      invariant forall j | 1 <= j <= steps :: !Arrives(start, end, nodes, path, j)
    {
      if current !in nodes {
        assert Walk(start, nodes, path, steps + 1).None?;
        forall j | steps < j <= fuel ensures !Arrives(start, end, nodes, path, j) {
          WalkStuck(start, nodes, path, steps + 1, j);
        }
        return None;
      }
      current := Move(nodes[current], path[steps % |path|]);
      steps := steps + 1;
      if EndsWith(current, end) {
        return Some(steps);
      }
    }
    return None;
  }

  // ---------------------------------------------------------------------
  // Divisibility, greatest common divisor and least common multiple

  function Times(d: nat, k: nat): nat { d * k }

  /** `d` divides `n`. */
  ghost predicate Divides(d: nat, n: nat) {
    exists k: nat :: Times(d, k) == n
  }

  /** Euclid's algorithm (`gcd`). */
  function Gcd(a: nat, b: nat): nat
    decreases b
  {
    if b == 0 then a else Gcd(b, a % b)
  }

  /** Division of a natural number by a positive one. */
  function Quotient(n: nat, d: nat): nat
    requires d > 0
  {
    n / d
  }

  /** `lcm`: the product divided by the greatest common divisor; the source
      divides by zero when both are zero. */
  function Lcm(a: nat, b: nat): nat
    requires a != 0 || b != 0
  {
    GcdPositive(a, b);
    Quotient(Times(a, b), Gcd(a, b))
  }

  /** `lcm_vec`: fold from 1. */
  function LcmVec(v: seq<nat>): (l: nat)
    requires forall i | 0 <= i < |v| :: v[i] > 0
    ensures l > 0
  {
    if v == [] then 1
    else
      var acc := LcmVec(v[..|v| - 1]);
      LcmPositive(acc, v[|v| - 1]);
      Lcm(acc, v[|v| - 1])
  }

  lemma DividesSum(d: nat, x: nat, y: nat, q: nat)
    requires Divides(d, x) && Divides(d, y)
    ensures Divides(d, q * x + y)
  {
    var kx: nat :| Times(d, kx) == x;
    var ky: nat :| Times(d, ky) == y;
    assert q * x == d * (q * kx);
    assert Times(d, q * kx + ky) == q * x + y;
  }

  lemma DividesDifference(d: nat, x: nat, y: nat, q: nat)
    requires Divides(d, x) && Divides(d, y) && q * x <= y
    ensures Divides(d, y - q * x)
  {
    var kx: nat :| Times(d, kx) == x;
    var ky: nat :| Times(d, ky) == y;
    assert q * x == d * (q * kx);
    if d == 0 {
      assert Times(d, 0) == y - q * x;
    } else {
      assert d * (ky - q * kx) == y - q * x;
      SignOfProduct(d, ky - q * kx);
      assert Times(d, ky - q * kx) == y - q * x;
    }
  }

  lemma DividesTransitive(a: nat, b: nat, c: nat)
    requires Divides(a, b) && Divides(b, c)
    ensures Divides(a, c)
  {
    var k1: nat :| Times(a, k1) == b;
    var k2: nat :| Times(b, k2) == c;
    assert a * (k1 * k2) == (a * k1) * k2;
    assert Times(a, k1 * k2) == c;
  }

  /** Mutual divisibility of natural numbers is equality. */
  lemma DividesAntisymmetric(a: nat, b: nat)
    requires Divides(a, b) && Divides(b, a)
    ensures a == b
  {
    var k1: nat :| Times(a, k1) == b;
    var k2: nat :| Times(b, k2) == a;
    if a != 0 && b != 0 {
      assert a * (k1 * k2) == a;
      assert k1 * k2 == 1;
      assert k1 == 1;
    }
  }

  /** The result divides both arguments. */
  lemma {:induction false} GcdDivides(a: nat, b: nat)
    ensures Divides(Gcd(a, b), a) && Divides(Gcd(a, b), b)
    decreases b
  {
    var g := Gcd(a, b);
    if b == 0 {
      assert Times(g, 1) == a && Times(g, 0) == b;
    } else {
      GcdDivides(b, a % b);
      assert a == (a / b) * b + a % b;
      DividesSum(g, b, a % b, a / b);
    }
  }

  /** Every common divisor divides the result: it is the greatest. */
  lemma {:induction false} GcdGreatest(a: nat, b: nat, d: nat)
    requires Divides(d, a) && Divides(d, b)
    ensures Divides(d, Gcd(a, b))
    decreases b
  {
    if b != 0 {
      assert a % b == a - (a / b) * b;
      DividesDifference(d, b, a, a / b);
      GcdGreatest(b, a % b, d);
    }
  }

  lemma GcdPositive(a: nat, b: nat)
    requires a != 0 || b != 0
    ensures Gcd(a, b) > 0
  {
    GcdDivides(a, b);
    var ka: nat :| Times(Gcd(a, b), ka) == a;
    var kb: nat :| Times(Gcd(a, b), kb) == b;
  }

  /** Bezout's identity, by the extended Euclidean algorithm. */
  lemma {:induction false} GcdBezout(a: nat, b: nat) returns (x: int, y: int)
    ensures a * x + b * y == Gcd(a, b)
    decreases b
  {
    if b == 0 {
      x, y := 1, 0;
    } else {
      var q, r := a / b, a % b;
      var x', y' := GcdBezout(b, r);
      assert b * x' + r * y' == Gcd(a, b);
      assert r == a - b * q;
      assert r * y' == a * y' - b * (q * y');
      x, y := y', x' - q * y';
      assert b * y == b * x' - b * (q * y');
    }
  }

  lemma DivideProduct(g: nat, n: nat)
    requires g > 0
    ensures g * n / g == n
  {
    var q, r := g * n / g, g * n % g;
    assert g * n == g * q + r;
    MulCancel(g, n - q, 0, r);
  }

  /** A multiple of a positive `g` that lies in `0..g` is zero times `g`. */
  lemma MulCancel(g: int, t: int, lo: int, r: int)
    requires g > 0 && lo == 0 && g * t == r && 0 <= r < g
    ensures t == 0
  {
    if t > 0 {
      MulMonotone(g, t);
    } else if t < 0 {
      MulMonotone(g, -t);
    }
  }

  lemma MulMonotone(g: int, t: int)
    requires g > 0 && t > 0
    ensures g * t >= g
  {
  }

  /** With `g` the greatest common divisor and `b == g * kb`, the least
      common multiple is `a * kb`. */
  lemma LcmForm(a: nat, b: nat, kb: nat)
    requires a != 0 || b != 0
    requires Times(Gcd(a, b), kb) == b
    ensures Lcm(a, b) == a * kb
  {
    var g := Gcd(a, b);
    GcdPositive(a, b);
    assert a * b == g * (a * kb);
    DivideProduct(g, a * kb);
  }

  lemma LcmPositive(a: nat, b: nat)
    requires a > 0 && b > 0
    ensures Lcm(a, b) > 0
  {
    GcdDivides(a, b);
    var kb: nat :| Times(Gcd(a, b), kb) == b;
    LcmForm(a, b, kb);
  }

  /** The result is a common multiple of both arguments. */
  lemma LcmMultiple(a: nat, b: nat)
    requires a != 0 || b != 0
    ensures Divides(a, Lcm(a, b)) && Divides(b, Lcm(a, b))
  {
    var g := Gcd(a, b);
    GcdDivides(a, b);
    GcdPositive(a, b);
    var ka: nat :| Times(g, ka) == a;
    var kb: nat :| Times(g, kb) == b;
    LcmForm(a, b, kb);
    assert Times(a, kb) == Lcm(a, b);
    assert a * kb == g * ka * kb == b * ka;
    assert Times(b, ka) == Lcm(a, b);
  }

  /** ... and it divides every common multiple: it is the least one. */
  lemma LcmLeast(a: nat, b: nat, m: nat)
    requires a != 0 || b != 0
    requires Divides(a, m) && Divides(b, m)
    ensures Divides(Lcm(a, b), m)
  {
    LcmTimesGcd(a, b);
    var ma: nat :| Times(a, ma) == m;
    var mb: nat :| Times(b, mb) == m;
    var x, y := GcdBezout(a, b);
    var t := LcmQuotient(a, b, Gcd(a, b), Lcm(a, b), m, x, y, ma, mb);
    assert Times(Lcm(a, b), t) == m;
  }

  /** The gcd times the lcm is the product. */
  lemma LcmTimesGcd(a: nat, b: nat)
    requires a != 0 || b != 0
    ensures Gcd(a, b) > 0 && Gcd(a, b) * Lcm(a, b) == a * b
  {
    var g := Gcd(a, b);
    GcdDivides(a, b);
    GcdPositive(a, b);
    var kb: nat :| Times(g, kb) == b;
    LcmForm(a, b, kb);
    MulSwap(g, a, kb);
  }

  lemma MulSwap(x: int, y: int, z: int)
    ensures x * (y * z) == y * (x * z)
  {
  }

  /** With Bezout coefficients `x`, `y` of `a` and `b`, a common multiple
      `m` is a multiple of `l = a * b / g`. */
  lemma LcmQuotient(a: int, b: int, g: int, l: int, m: int, x: int, y: int, ma: int, mb: int) returns (t: nat)
    requires g > 0 && l >= 0 && m >= 0 && g * l == a * b
    requires a * x + b * y == g && m == a * ma && m == b * mb
    ensures l * t == m
  {
    var s := mb * x + ma * y;
    BezoutMultiple(a, b, g, x, y, m, ma, mb);
    assert g * m == g * (l * s) by {
      assert m * g == (g * l) * s;
      assert (g * l) * s == g * (l * s);
    }
    CancelFactor(g, m, l * s);
    if l == 0 {
      t := 0;
    } else {
      SignOfProduct(l, s);
      t := s;
    }
  }

  lemma BezoutMultiple(a: int, b: int, g: int, x: int, y: int, m: int, ma: int, mb: int)
    requires a * x + b * y == g && m == a * ma && m == b * mb
    ensures m * g == (a * b) * (mb * x + ma * y)
  {
    calc {
      m * g;
      m * (a * x) + m * (b * y);
      (b * mb) * (a * x) + (a * ma) * (b * y);
      (a * b) * (mb * x) + (a * b) * (ma * y);
      (a * b) * (mb * x + ma * y);
    }
  }

  lemma CancelFactor(g: int, u: int, v: int)
    requires g > 0 && g * u == g * v
    ensures u == v
  {
    assert g * (u - v) == 0;
    MulCancel(g, u - v, 0, 0);
  }

  lemma SignOfProduct(l: int, t: int)
    requires l > 0 && l * t >= 0
    ensures t >= 0
  {
    if t < 0 {
      MulMonotone(l, -t);
    }
  }

  /** Every entry divides the folded result. */
  lemma {:induction false} LcmVecMultiple(v: seq<nat>)
    requires forall i | 0 <= i < |v| :: v[i] > 0
    ensures forall i | 0 <= i < |v| :: Divides(v[i], LcmVec(v))
  {
    if v != [] {
      var init, last := v[..|v| - 1], v[|v| - 1];
      LcmVecMultiple(init);
      LcmMultiple(LcmVec(init), last);
      forall i | 0 <= i < |v| ensures Divides(v[i], LcmVec(v)) {
        if i < |v| - 1 {
          assert v[i] == init[i];
          DividesTransitive(v[i], LcmVec(init), LcmVec(v));
        }
      }
    }
  }

  /** The folded result divides every common multiple of the entries. */
  lemma {:induction false} LcmVecLeast(v: seq<nat>, m: nat)
    requires forall i | 0 <= i < |v| :: v[i] > 0
    requires forall i | 0 <= i < |v| :: Divides(v[i], m)
    ensures Divides(LcmVec(v), m)
  {
    if v == [] {
      assert Times(1, m) == m;
    } else {
      var init, last := v[..|v| - 1], v[|v| - 1];
      assert forall i | 0 <= i < |init| :: init[i] == v[i];
      LcmVecLeast(init, m);
      LcmLeast(LcmVec(init), last, m);
    }
  }

  /** The fold does not depend on the order of the entries, so iterating the
      hash map in any order gives the same answer. */
  lemma LcmVecPermutation(v: seq<nat>, w: seq<nat>)
    requires forall i | 0 <= i < |v| :: v[i] > 0
    requires multiset(v) == multiset(w)
    ensures forall i | 0 <= i < |w| :: w[i] > 0
    ensures LcmVec(v) == LcmVec(w)
  {
    forall i | 0 <= i < |w| ensures w[i] > 0 && Divides(w[i], LcmVec(v)) {
      assert w[i] in multiset(v);
      var j :| 0 <= j < |v| && v[j] == w[i];
      LcmVecMultiple(v);
    }
    forall i | 0 <= i < |v| ensures Divides(v[i], LcmVec(w)) {
      assert v[i] in multiset(w);
      var j :| 0 <= j < |w| && w[j] == v[i];
      LcmVecMultiple(w);
    }
    LcmVecLeast(w, LcmVec(v));
    LcmVecLeast(v, LcmVec(w));
    DividesAntisymmetric(LcmVec(v), LcmVec(w));
  }

  // ---------------------------------------------------------------------
  // Parsing

  /** One node line `AAA = (BBB, CCC)`, read by position; the source's
      slicing panics on a line shorter than 15 characters. */
  function ParseLine(line: string): (r: Option<(Name, (Name, Name))>)
    ensures r.Some? <==> |line| >= 15
  {
    if |line| < 15 then None else Some((line[0..3], (line[7..10], line[12..15])))
  }

  function FormatLine(name: Name, left: Name, right: Name): string {
    name + " = (" + left + ", " + right + ")"
  }

  /** Reading a line recovers the three names it was written with. */
  lemma ParseFormatted(name: Name, left: Name, right: Name)
    requires |name| == 3 && |left| == 3 && |right| == 3
    ensures ParseLine(FormatLine(name, left, right)) == Some((name, (left, right)))
  {
    var line := FormatLine(name, left, right);
    assert line[0..3] == name;
    assert line[7..10] == left;
    assert line[12..15] == right;
  }

  function ParseLines(lines: seq<string>): (r: Option<seq<(Name, (Name, Name))>>)
    ensures r.Some? <==> forall i | 0 <= i < |lines| :: |lines[i]| >= 15
    ensures r.Some? ==> |r.value| == |lines| && forall i | 0 <= i < |lines| :: Some(r.value[i]) == ParseLine(lines[i])
  {
    if lines == [] then Some([])
    else
      var head, tail := ParseLine(lines[0]), ParseLines(lines[1..]);
      if head.Some? && tail.Some? then Some([head.value] + tail.value) else None
  }

  /** Collecting entries into a hash map: every name becomes a key, and a
      name given twice keeps its last entry. */
  function Collect(entries: seq<(Name, (Name, Name))>): (m: Nodes)
    ensures m.Keys == set i | 0 <= i < |entries| :: entries[i].0
    ensures forall i | 0 <= i < |entries| && (forall j | i < j < |entries| :: entries[j].0 != entries[i].0) ::
      m[entries[i].0] == entries[i].1
  {
    if entries == [] then map[]
    else
      var init, last := entries[..|entries| - 1], entries[|entries| - 1];
      assert entries == init + [last];
      CollectSnoc(init, last, Collect(init));
      Collect(init)[last.0 := last.1]
  }

  /** Inserting one more entry into the map of the earlier ones gives the
      map of all of them. */
  lemma CollectSnoc(init: seq<(Name, (Name, Name))>, last: (Name, (Name, Name)), prev: Nodes)
    requires prev.Keys == set i | 0 <= i < |init| :: init[i].0
    requires forall i | 0 <= i < |init| && (forall j | i < j < |init| :: init[j].0 != init[i].0) ::
      prev[init[i].0] == init[i].1
    ensures var entries, m := init + [last], prev[last.0 := last.1];
      m.Keys == (set i | 0 <= i < |entries| :: entries[i].0) &&
      forall i | 0 <= i < |entries| && (forall j | i < j < |entries| :: entries[j].0 != entries[i].0) ::
        m[entries[i].0] == entries[i].1
  {
    var entries, m := init + [last], prev[last.0 := last.1];
    assert forall i | 0 <= i < |init| :: entries[i] == init[i];
    assert entries[|init|] == last;
  }

  /** 'L' is instruction 0 (left); any other character is 1 (right). */
  function Instructions(s: string): (path: seq<nat>)
    ensures |path| == |s|
    ensures forall i | 0 <= i < |s| :: (path[i] == 0 <==> s[i] == 'L') && path[i] <= 1
  {
    seq(|s|, i requires 0 <= i < |s| => if s[i] == 'L' then 0 else 1)
  }

  /** `parse_instructions`: the instruction line, a blank line, then one
      node per line. */
  function ParseInstructions(source: string): (r: Option<(seq<nat>, Nodes)>)
    ensures SplitOnce(source, "\n\n").None? ==> r.None?
    ensures SplitOnce(source, "\n\n").Some? ==>
      var (left, right) := SplitOnce(source, "\n\n").value;
      r.Some? <==> ParseLines(Split(right, "\n")).Some?
  {
    match SplitOnce(source, "\n\n")
    case None => None
    case Some((left, right)) =>
      match ParseLines(Split(right, "\n"))
      case None => None
      case Some(entries) => Some((Instructions(left), Collect(entries)))
  }

  // ---------------------------------------------------------------------
  // The two answers

  /** The names that end in `A`: the starting points of the second part. */
  function Starts(nodes: Nodes): set<Name> {
    set n | n in nodes && EndsWith(n, "A")
  }

  /** `l` is the least common multiple of the first-arrival counts of the
      walks from every start: a multiple of each, dividing every common
      multiple of them. */
  ghost predicate LcmOfArrivals(nodes: Nodes, path: seq<nat>, l: nat)
    requires |path| > 0
  {
    (forall s | s in Starts(nodes) :: exists k :: FirstArrival(s, "Z", nodes, path, k) && Divides(k, l)) &&
    (forall m: nat :: (forall s, k | s in Starts(nodes) && FirstArrival(s, "Z", nodes, path, k) :: Divides(k, m)) ==> Divides(l, m))
  }

  /** The fold over the counts of all the starts, in whatever order they were
      visited, is their least common multiple. */
  lemma LcmVecOfArrivals(nodes: Nodes, path: seq<nat>, done: seq<Name>, counts: seq<nat>)
    requires |path| > 0 && |done| == |counts|
    requires forall i | 0 <= i < |counts| :: counts[i] > 0
    requires forall s | s in Starts(nodes) :: exists i :: 0 <= i < |done| && done[i] == s
    requires forall i | 0 <= i < |counts| :: done[i] in Starts(nodes) && FirstArrival(done[i], "Z", nodes, path, counts[i])
    ensures LcmOfArrivals(nodes, path, LcmVec(counts))
  {
    var l := LcmVec(counts);
    LcmVecMultiple(counts);
    forall s | s in Starts(nodes) ensures exists k :: FirstArrival(s, "Z", nodes, path, k) && Divides(k, l) {
      var i :| 0 <= i < |done| && done[i] == s;
      assert FirstArrival(s, "Z", nodes, path, counts[i]) && Divides(counts[i], l);
    }
    forall m: nat | (forall s, k | s in Starts(nodes) && FirstArrival(s, "Z", nodes, path, k) :: Divides(k, m))
      ensures Divides(l, m)
    {
      forall i | 0 <= i < |counts| ensures Divides(counts[i], m) {
        assert done[i] in Starts(nodes) && FirstArrival(done[i], "Z", nodes, path, counts[i]);
      }
      LcmVecLeast(counts, m);
    }
  }

  /** `exec`, with every walk bounded by `fuel` moves. */
  method Exec(source: string, fuel: nat) returns (r: Option<(nat, nat)>)
    ensures r.Some? ==> ParseInstructions(source).Some?
    ensures r.Some? ==>
      var (path, nodes) := ParseInstructions(source).value;
      |path| > 0 && FirstArrival("AAA", "ZZZ", nodes, path, r.value.0) && LcmOfArrivals(nodes, path, r.value.1)
    ensures r.None? ==>
      (ParseInstructions(source).None? ||
       var (path, nodes) := ParseInstructions(source).value;
       path == [] || Stuck("AAA", "ZZZ", nodes, path, fuel) ||
       exists s | s in Starts(nodes) :: Stuck(s, "Z", nodes, path, fuel))
  {
    var parsed := ParseInstructions(source);
    if parsed.None? {
      return None;
    }
    var (path, nodes) := parsed.value;
    var partA := CalcSteps("AAA", "ZZZ", nodes, path, fuel);
    if partA.None? {
      return None;
    }
    var partB := AllStarts(nodes, path, fuel);
    if partB.None? {
      return None;
    }
    return Some((partA.value, partB.value));
  }

  /** Loop state of `AllStarts`: `done` are the starts walked so far, in
      order, `counts` their first-arrival counts, `todo` the starts left. */
  ghost predicate Progress(nodes: Nodes, path: seq<nat>, todo: set<Name>, done: seq<Name>, counts: seq<nat>)
    requires |path| > 0
  {
    todo <= Starts(nodes) && |counts| == |done| &&
    (forall i | 0 <= i < |counts| :: counts[i] > 0) &&
    (forall i | 0 <= i < |done| :: done[i] in Starts(nodes) && FirstArrival(done[i], "Z", nodes, path, counts[i])) &&
    (forall s | s in Starts(nodes) && s !in todo :: exists i :: 0 <= i < |done| && done[i] == s)
  }

  lemma ProgressStep(nodes: Nodes, path: seq<nat>, todo: set<Name>, done: seq<Name>, counts: seq<nat>, start: Name, k: nat)
    requires |path| > 0
    requires Progress(nodes, path, todo, done, counts)
    requires start in todo && FirstArrival(start, "Z", nodes, path, k)
    ensures Progress(nodes, path, todo - {start}, done + [start], counts + [k])
  {
    var done', counts' := done + [start], counts + [k];
    forall i | 0 <= i < |done'| ensures done'[i] in Starts(nodes) && FirstArrival(done'[i], "Z", nodes, path, counts'[i]) {
      if i < |done| {
        assert done'[i] == done[i] && counts'[i] == counts[i];
      }
    }
    forall s | s in Starts(nodes) && s !in todo - {start} ensures exists i :: 0 <= i < |done'| && done'[i] == s {
      if s == start {
        assert done'[|done|] == s;
      } else {
        var i :| 0 <= i < |done| && done[i] == s;
        assert done'[i] == s;
      }
    }
  }

  /** The second answer: walks from every start, in hash-map order, folded
      with `lcm` from 1. */
  method AllStarts(nodes: Nodes, path: seq<nat>, fuel: nat) returns (r: Option<nat>)
    requires |path| > 0
    ensures r.Some? ==> LcmOfArrivals(nodes, path, r.value)
    ensures r.None? ==> exists s | s in Starts(nodes) :: Stuck(s, "Z", nodes, path, fuel)
  {
    var todo := Starts(nodes);
    var acc: nat := 1;
    ghost var counts: seq<nat> := [];
    ghost var done: seq<Name> := [];
    while todo != {}
      invariant Progress(nodes, path, todo, done, counts)
      invariant acc == LcmVec(counts)
      decreases |todo|
    {
      var start :| start in todo;
      var steps := CalcSteps(start, "Z", nodes, path, fuel);
      if steps.None? {
        return None;
      }
      ProgressStep(nodes, path, todo, done, counts, start, steps.value);
      ghost var counts' := counts + [steps.value];
      assert counts'[..|counts|] == counts;
      counts := counts';
      done := done + [start];
      acc := Lcm(acc, steps.value);
      todo := todo - {start};
    }
    LcmVecOfArrivals(nodes, path, done, counts);
    return Some(acc);
  }

  /** The parsing example: two instructions repeated, one node. */
  lemma ExampleParse()
    ensures ParseInstructions("LRLR\n\nAAA = (BBB, CCC)") == Some(([0, 1, 0, 1], map["AAA" := ("BBB", "CCC")]))
  {
    ExampleSplitOnce();
    ExampleNodeLine();
    ExampleInstructions();
    ExampleCollect();
  }

  lemma ExampleInstructions()
    ensures Instructions("LRLR") == [0, 1, 0, 1]
  {
  }

  lemma ExampleCollect()
    ensures Collect([("AAA", ("BBB", "CCC"))]) == map["AAA" := ("BBB", "CCC")]
  {
    var entries := [("AAA", ("BBB", "CCC"))];
    assert entries[..0] == [];
  }

  lemma ExampleSplitOnce()
    ensures SplitOnce("LRLR\n\nAAA = (BBB, CCC)", "\n\n") == Some(("LRLR", "AAA = (BBB, CCC)"))
  {
    var source := "LRLR\n\nAAA = (BBB, CCC)";
    assert source == "LRLR" + "\n\n" + "AAA = (BBB, CCC)";
    FindAtFirstChar(source, "\n\n", 4);
    SplitFirst(source, "\n\n", 4);
  }

  lemma ExampleNodeLine()
    ensures ParseLines(Split("AAA = (BBB, CCC)", "\n")) == Some([("AAA", ("BBB", "CCC"))])
  {
    ExampleNodeSplit();
    ExampleNodeParse("AAA = (BBB, CCC)");
  }

  lemma ExampleNodeSplit()
    ensures Split("AAA = (BBB, CCC)", "\n") == ["AAA = (BBB, CCC)"]
  {
    NoCharOccurs("AAA = (BBB, CCC)", '\n');
    SplitNone("AAA = (BBB, CCC)", "\n");
  }

  lemma ExampleNodeParse(node: string)
    requires node == "AAA = (BBB, CCC)"
    ensures ParseLines([node]) == Some([("AAA", ("BBB", "CCC"))])
  {
    assert node == FormatLine("AAA", "BBB", "CCC");
    ParseFormatted("AAA", "BBB", "CCC");
    var r := ParseLines([node]);
    assert [node][0] == node;
    assert r.Some? && |r.value| == 1;
    assert r.value[0] == ("AAA", ("BBB", "CCC"));
    assert r.value == [r.value[0]];
  }
}
