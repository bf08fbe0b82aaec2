/** Spring arrangements: a row of springs is a string of `#` (damaged), `.`
    (operational) and `?` (unknown) together with the lengths of the groups
    of damaged springs; the answer is the number of ways to fill in the
    unknown springs that produce exactly those groups. */
module Day12 {
  import opened Common

  // ---------------------------------------------------------------------
  // The recursive count

  /** `solve`: consumes the row one spring at a time, counting down the
      group at the head of `arrangement`; `inMatch` is set while inside a
      group of damaged springs. `None` is the abort on a character other
      than `#`, `.` and `?`. A row made only of the three characters never
      aborts. */
  function Solve(line: string, arrangement: seq<nat>, inMatch: bool): (r: Option<nat>)
    ensures Valid(line) ==> r.Some?
    decreases |line|, if line != [] && line[0] == '?' then 1 else 0
  {
    if line == [] then Some(if Sum(arrangement) == 0 then 1 else 0)
    else
      var remaining := if arrangement == [] then 0 else arrangement[0];
      var rest := line[1..];
      var tail := if arrangement == [] then [] else arrangement[1..];
      assert Valid(line) ==> Valid(rest) by {
        if Valid(line) {
          assert forall i | 0 <= i < |rest| :: rest[i] == line[i + 1];
        }
      }
      if line[0] == '#' then
        if remaining == 0 then Some(0) else Solve(rest, [remaining - 1] + tail, true)
      else if line[0] == '.' then
        if inMatch && remaining != 0 then Some(0)
        else if remaining == 0 then Solve(rest, tail, false)
        else Solve(rest, arrangement, false)
      else if line[0] == '?' then
        assert Valid(rest) ==> Valid(['#'] + rest) && Valid(['.'] + rest);
        match (Solve(['#'] + rest, arrangement, inMatch), Solve(['.'] + rest, arrangement, inMatch))
        case (Some(a), Some(b)) => Some(a + b)
        case _ => None
      else None
  }

  predicate Valid(line: string) {
    forall i | 0 <= i < |line| :: line[i] == '#' || line[i] == '.' || line[i] == '?'
  }

  // ---------------------------------------------------------------------
  // Reference: fillings and their groups

  /** `c` is the row `line` with every unknown spring filled in. */
  predicate FillOf(c: string, line: string) {
    && |c| == |line|
    && forall i | 0 <= i < |line| ::
         if line[i] == '?' then c[i] == '#' || c[i] == '.' else c[i] == line[i]
  }

  function Prefixed(ch: char, cs: seq<string>): (r: seq<string>)
    ensures |r| == |cs| && forall i | 0 <= i < |cs| :: r[i] == [ch] + cs[i]
  {
    seq(|cs|, i requires 0 <= i < |cs| => [ch] + cs[i])
  }

  /** Every filling of a row, each once. */
  function Fills(line: string): seq<string> {
    if line == [] then [[]]
    else
      var f := Fills(line[1..]);
      if line[0] == '?' then Prefixed('#', f) + Prefixed('.', f) else Prefixed(line[0], f)
  }

  /** `Fills` lists only fillings of the row. */
  lemma {:induction false} FillsSound(line: string)
    ensures forall i | 0 <= i < |Fills(line)| :: FillOf(Fills(line)[i], line)
  {
    if line != [] {
      var f := Fills(line[1..]);
      FillsSound(line[1..]);
      assert forall j | 1 <= j < |line| :: line[j] == line[1..][j - 1];
      forall i | 0 <= i < |Fills(line)| ensures FillOf(Fills(line)[i], line) {
        var k := if line[0] == '?' && i >= |f| then i - |f| else i;
        assert FillOf(f[k], line[1..]);
        assert Fills(line)[i] == [Fills(line)[i][0]] + f[k];
      }
    }
  }

  /** Every filling of a row is among `Fills`. */
  lemma {:induction false} FillsComplete(c: string, line: string)
    requires FillOf(c, line)
    ensures c in Fills(line)
  {
    if line != [] {
      assert FillOf(c[1..], line[1..]);
      FillsComplete(c[1..], line[1..]);
      var i :| 0 <= i < |Fills(line[1..])| && Fills(line[1..])[i] == c[1..];
      FillsCons(c, line, i);
    }
  }

  /** A filling whose tail is the `i`th filling of the row's tail is a
      filling of the row. */
  lemma FillsCons(c: string, line: string, i: nat)
    requires line != [] && FillOf(c, line)
    requires i < |Fills(line[1..])| && Fills(line[1..])[i] == c[1..]
    ensures c in Fills(line)
  {
    var f := Fills(line[1..]);
    assert c == [c[0]] + f[i];
    if line[0] == '?' {
      if c[0] == '#' {
        assert Fills(line)[i] == c;
      } else {
        assert Fills(line)[|f| + i] == c;
      }
    } else {
      assert Fills(line)[i] == c;
    }
  }

  /** No filling is listed twice. */
  lemma {:induction false} FillsDistinct(line: string)
    ensures forall i, j | 0 <= i < j < |Fills(line)| :: Fills(line)[i] != Fills(line)[j]
  {
    if line != [] {
      FillsDistinct(line[1..]);
      var f := Fills(line[1..]);
      forall i, j | 0 <= i < j < |Fills(line)| ensures Fills(line)[i] != Fills(line)[j] {
        var r := Fills(line);
        if line[0] == '?' && i < |f| <= j {
          assert r[i][0] == '#' && r[j][0] == '.';
        } else if line[0] == '?' && |f| <= i {
          assert r[i][1..] == f[i - |f|] && r[j][1..] == f[j - |f|];
        } else {
          assert r[i][1..] == f[i] && r[j][1..] == f[j];
        }
      }
    }
  }

  /** The lengths of the groups of damaged springs of a filled row, in
      order, when a group of `run` damaged springs is already open. */
  function GroupsFrom(c: string, run: nat): seq<nat> {
    if c == [] then (if run > 0 then [run] else [])
    else if c[0] == '#' then GroupsFrom(c[1..], run + 1)
    else (if run > 0 then [run] else []) + GroupsFrom(c[1..], 0)
  }

  function Groups(c: string): seq<nat> {
    GroupsFrom(c, 0)
  }

  /** An open group shows up first, at least as long as it is now. */
  lemma {:induction false} GroupsFromOpen(c: string, run: nat)
    requires run > 0
    ensures |GroupsFrom(c, run)| >= 1 && GroupsFrom(c, run)[0] >= run
  {
    if c != [] && c[0] == '#' {
      GroupsFromOpen(c[1..], run + 1);
    }
  }

  /** How many of the filled rows `cs` have the groups `target`. */
  function Matching(cs: seq<string>, run: nat, target: seq<nat>): nat {
    if cs == [] then 0
    else Matching(cs[..|cs| - 1], run, target) + (if GroupsFrom(cs[|cs| - 1], run) == target then 1 else 0)
  }

  /** The number of arrangements of a row: its fillings whose groups are
      the given lengths. */
  function Arrangements(line: string, arrangement: seq<nat>): nat {
    Matching(Fills(line), 0, arrangement)
  }

  lemma {:induction false} MatchingConcat(a: seq<string>, b: seq<string>, run: nat, target: seq<nat>)
    ensures Matching(a + b, run, target) == Matching(a, run, target) + Matching(b, run, target)
  {
    if b == [] {
      assert a + b == a;
    } else {
      assert (a + b)[..|a + b| - 1] == a + b[..|b| - 1];
      assert (a + b)[|a + b| - 1] == b[|b| - 1];
      MatchingConcat(a, b[..|b| - 1], run, target);
    }
  }

  /** A damaged spring extends the open group. */
  lemma {:induction false} MatchingDamaged(cs: seq<string>, run: nat, target: seq<nat>)
    ensures Matching(Prefixed('#', cs), run, target) == Matching(cs, run + 1, target)
  {
    if cs != [] {
      assert Prefixed('#', cs)[..|cs| - 1] == Prefixed('#', cs[..|cs| - 1]);
      assert ([ '#'] + cs[|cs| - 1])[1..] == cs[|cs| - 1];
      MatchingDamaged(cs[..|cs| - 1], run, target);
    }
  }

  /** An operational spring closes the open group, which must then be the
      next expected length. */
  lemma {:induction false} MatchingOperational(cs: seq<string>, run: nat, target: seq<nat>)
    ensures Matching(Prefixed('.', cs), run, target) ==
      if run == 0 then Matching(cs, 0, target)
      else if |target| >= 1 && target[0] == run then Matching(cs, 0, target[1..])
      else 0
  {
    if cs != [] {
      assert Prefixed('.', cs)[..|cs| - 1] == Prefixed('.', cs[..|cs| - 1]);
      var c := cs[|cs| - 1];
      assert ([ '.'] + c)[1..] == c;
      if run > 0 && |target| >= 1 && target[0] == run {
        assert [run] + GroupsFrom(c, 0) == target <==> GroupsFrom(c, 0) == target[1..];
      }
      MatchingOperational(cs[..|cs| - 1], run, target);
    }
  }

  /** No filled row matches when the open group is already longer than the
      next expected length. */
  lemma {:induction false} MatchingTooLong(cs: seq<string>, run: nat, target: seq<nat>)
    requires run > 0 && (target == [] || target[0] < run)
    ensures Matching(cs, run, target) == 0
  {
    if cs != [] {
      GroupsFromOpen(cs[|cs| - 1], run);
      MatchingTooLong(cs[..|cs| - 1], run, target);
    }
  }

  predicate Positive(arrangement: seq<nat>) {
    forall i | 0 <= i < |arrangement| :: arrangement[i] > 0
  }

  lemma {:induction false} SumPositive(arrangement: seq<nat>)
    requires Positive(arrangement)
    ensures Sum(arrangement) == 0 <==> arrangement == []
  {
    if arrangement != [] {
      SumPositive(arrangement[..|arrangement| - 1]);
      assert Sum(arrangement[..|arrangement| - 1]) >= 0 by {
        SumNat(arrangement[..|arrangement| - 1]);
      }
    }
  }

  lemma {:induction false} SumNat(s: seq<nat>)
    ensures Sum(s) >= 0
  {
    if s != [] {
      SumNat(s[..|s| - 1]);
    }
  }

  /** The groups still to be matched, seen from the start of the row: all
      of `arrangement` outside a group, and the open group (`run` springs
      so far, `arrangement[0]` still to come) followed by the rest inside
      one. */
  function Target(arrangement: seq<nat>, run: nat): seq<nat>
    requires run > 0 ==> |arrangement| >= 1
  {
    if run == 0 then arrangement else [run + arrangement[0]] + arrangement[1..]
  }

  /** At the end of the row the only filling is the empty one. */
  lemma SolveCountsEmpty(arrangement: seq<nat>, run: nat)
    requires Expecting(arrangement, run)
    ensures Counts([], arrangement, run)
  {
    var line: string := [];
    var target := Target(arrangement, run);
    assert Fills(line) == [[]];
    assert Matching(Fills(line), run, target) == if GroupsFrom([], run) == target then 1 else 0 by {
      assert Fills(line)[..0] == [];
    }
    if run == 0 {
      SumPositive(arrangement);
    } else {
      assert arrangement == [arrangement[0]] + arrangement[1..];
      SumConcat([arrangement[0]], arrangement[1..]);
      assert Sum([arrangement[0]]) == arrangement[0] by {
        assert [arrangement[0]][..0] == [];
      }
      SumNat(arrangement[1..]);
      SumPositive(arrangement[1..]);
      assert GroupsFrom([], run) == [run];
      assert [run] == target <==> arrangement[0] == 0 && arrangement[1..] == [] by {
        if [run] == target {
          assert target[0] == run && |target| == 1;
        }
      }
    }
  }

  /** The groups still to be matched and the run conditions, together. */
  predicate Expecting(arrangement: seq<nat>, run: nat) {
    && (run == 0 ==> Positive(arrangement))
    && (run > 0 ==> |arrangement| >= 1 && Positive(arrangement[1..]))
  }

  /** What `SolveCounts` states, for one row and state. */
  predicate Counts(line: string, arrangement: seq<nat>, run: nat)
    requires Expecting(arrangement, run)
  {
    Solve(line, arrangement, run > 0) == Some(Matching(Fills(line), run, Target(arrangement, run)))
  }

  /** `solve` counts the matching fillings: outside a group (`run == 0`,
      `inMatch` false) with positive group lengths, and inside a group of
      `run` springs so far. */
  lemma {:induction false} SolveCounts(line: string, arrangement: seq<nat>, run: nat)
    requires Valid(line) && Expecting(arrangement, run)
    ensures Counts(line, arrangement, run)
    decreases |line|, if line != [] && line[0] == '?' then 1 else 0
  {
    if line == [] {
      SolveCountsEmpty(arrangement, run);
    } else {
      var rest := line[1..];
      assert Valid(rest) by {
        assert forall i | 0 <= i < |rest| :: rest[i] == line[i + 1];
      }
      if line[0] == '#' {
        if arrangement != [] && arrangement[0] > 0 {
          SolveCounts(rest, [arrangement[0] - 1] + arrangement[1..], run + 1);
        }
        StepDamaged(line, arrangement, run);
      } else if line[0] == '.' {
        if run > 0 && arrangement[0] == 0 {
          SolveCounts(rest, arrangement[1..], 0);
        } else if run == 0 && arrangement == [] {
          SolveCounts(rest, [], 0);
        } else if run == 0 {
          SolveCounts(rest, arrangement, 0);
        }
        StepOperational(line, arrangement, run);
      } else {
        assert Valid(['#'] + rest) && Valid(['.'] + rest);
        SolveCounts(['#'] + rest, arrangement, run);
        SolveCounts(['.'] + rest, arrangement, run);
        StepUnknown(line, arrangement, run);
      }
    }
  }

  lemma StepDamaged(line: string, arrangement: seq<nat>, run: nat)
    requires line != [] && line[0] == '#' && Expecting(arrangement, run)
    requires arrangement != [] && arrangement[0] > 0 ==>
      Expecting([arrangement[0] - 1] + arrangement[1..], run + 1) &&
      Counts(line[1..], [arrangement[0] - 1] + arrangement[1..], run + 1)
    ensures Counts(line, arrangement, run)
  {
    var target := Target(arrangement, run);
    var f := Fills(line[1..]);
    assert Fills(line) == Prefixed('#', f);
    MatchingDamaged(f, run, target);
    if arrangement == [] || arrangement[0] == 0 {
      MatchingTooLong(f, run + 1, target);
    } else {
      TargetDamaged(arrangement, run);
    }
  }

  /** Taking one damaged spring off the next group and adding it to the
      open one leaves the expected groups unchanged. */
  lemma TargetDamaged(arrangement: seq<nat>, run: nat)
    requires arrangement != [] && arrangement[0] > 0
    ensures Target([arrangement[0] - 1] + arrangement[1..], run + 1) == Target(arrangement, run)
  {
    assert ([arrangement[0] - 1] + arrangement[1..])[1..] == arrangement[1..];
    if run == 0 {
      assert arrangement == [arrangement[0]] + arrangement[1..];
    }
  }

  lemma StepOperational(line: string, arrangement: seq<nat>, run: nat)
    requires line != [] && line[0] == '.' && Expecting(arrangement, run)
    requires run > 0 && arrangement[0] == 0 ==> Expecting(arrangement[1..], 0) && Counts(line[1..], arrangement[1..], 0)
    requires run == 0 ==> Counts(line[1..], arrangement, 0)
    ensures Counts(line, arrangement, run)
  {
    var target := Target(arrangement, run);
    var f := Fills(line[1..]);
    assert Fills(line) == Prefixed('.', f);
    MatchingOperational(f, run, target);
    if run == 0 && arrangement == [] {
      assert Solve(line, arrangement, false) == Solve(line[1..], [], false);
    }
  }

  lemma {:induction false} StepUnknown(line: string, arrangement: seq<nat>, run: nat)
    requires line != [] && line[0] == '?' && Expecting(arrangement, run)
    requires Solve(['#'] + line[1..], arrangement, run > 0) == Some(Matching(Fills(['#'] + line[1..]), run, Target(arrangement, run)))
    requires Solve(['.'] + line[1..], arrangement, run > 0) == Some(Matching(Fills(['.'] + line[1..]), run, Target(arrangement, run)))
    ensures Solve(line, arrangement, run > 0) == Some(Matching(Fills(line), run, Target(arrangement, run)))
  {
    StepUnknownAt(line, arrangement, run > 0, run, Target(arrangement, run));
  }

  /** `StepUnknown` for any expected groups and any state of the open group. */
  lemma StepUnknownAt(line: string, arrangement: seq<nat>, inMatch: bool, run: nat, t: seq<nat>)
    requires line != [] && line[0] == '?'
    requires Solve(['#'] + line[1..], arrangement, inMatch) == Some(Matching(Fills(['#'] + line[1..]), run, t))
    requires Solve(['.'] + line[1..], arrangement, inMatch) == Some(Matching(Fills(['.'] + line[1..]), run, t))
    ensures Solve(line, arrangement, inMatch) == Some(Matching(Fills(line), run, t))
  {
    var a := Matching(Fills(['#'] + line[1..]), run, t);
    var b := Matching(Fills(['.'] + line[1..]), run, t);
    assert Solve(line, arrangement, inMatch) == Some(a + b) by {
      SolveUnknownSome(line, arrangement, inMatch, a, b);
    }
    assert Matching(Fills(line), run, t) == a + b by {
      MatchingUnknown(line, run, t);
    }
  }

  /** `SolveUnknown` when both counts are present. */
  lemma SolveUnknownSome(line: string, arrangement: seq<nat>, inMatch: bool, a: nat, b: nat)
    requires line != [] && line[0] == '?'
    requires Solve(['#'] + line[1..], arrangement, inMatch) == Some(a)
    requires Solve(['.'] + line[1..], arrangement, inMatch) == Some(b)
    ensures Solve(line, arrangement, inMatch) == Some(a + b)
  {
    SolveUnknown(line, arrangement, inMatch);
  }

  /** The fillings of a row starting with an unknown spring that match are
      those that match with a damaged spring there, plus those that match
      with an operational one. */
  lemma MatchingUnknown(line: string, run: nat, target: seq<nat>)
    requires line != [] && line[0] == '?'
    ensures Matching(Fills(line), run, target) ==
      Matching(Fills(['#'] + line[1..]), run, target) + Matching(Fills(['.'] + line[1..]), run, target)
  {
    var f := Fills(line[1..]);
    FillsUnknown(line);
    MatchingConcat(Prefixed('#', f), Prefixed('.', f), run, target);
  }

  lemma SolveUnknown(line: string, arrangement: seq<nat>, inMatch: bool)
    requires line != [] && line[0] == '?'
    ensures Solve(line, arrangement, inMatch) ==
      match (Solve(['#'] + line[1..], arrangement, inMatch), Solve(['.'] + line[1..], arrangement, inMatch))
      case (Some(a), Some(b)) => Some(a + b)
      case _ => None
  {
  }

  /** The fillings of a row starting with an unknown spring are those
      starting with a damaged one, then those starting with an operational
      one. */
  lemma FillsUnknown(line: string)
    requires line != [] && line[0] == '?'
    ensures var f := Fills(line[1..]);
      && Fills(['#'] + line[1..]) == Prefixed('#', f)
      && Fills(['.'] + line[1..]) == Prefixed('.', f)
      && Fills(line) == Prefixed('#', f) + Prefixed('.', f)
  {
    var rest := line[1..];
    assert (['#'] + rest)[1..] == rest && (['.'] + rest)[1..] == rest;
  }

  /** The count `solve` gives for a row is its number of arrangements. */
  lemma SolveIsArrangements(line: string, arrangement: seq<nat>)
    requires Valid(line) && Positive(arrangement)
    ensures Solve(line, arrangement, false) == Some(Arrangements(line, arrangement))
  {
    SolveCounts(line, arrangement, 0);
  }

  // ---------------------------------------------------------------------
  // Parsing and unfolding

  /** `parse_line`: the row before the first space, and the comma-separated
      group lengths after it; `None` where the source's `unwrap` aborts. */
  function ParseLine(line: string): (r: Option<(string, seq<nat>)>)
    ensures r.Some? <==> SplitOnce(line, " ").Some? && ParseNats(Split(SplitOnce(line, " ").value.1, ",")).Some?
    ensures r.Some? ==> line == r.value.0 + " " + SplitOnce(line, " ").value.1 && Find(r.value.0, " ") == None
  {
    match SplitOnce(line, " ")
    case None => None
    case Some((left, right)) =>
      assert Find(left, " ") == None by {
        forall j ensures !OccursAt(left, " ", j) {
          if OccursAt(left, " ", j) {
            assert OccursAt(line, " ", j);
          }
        }
      }
      match ParseNats(Split(right, ","))
      case None => None
      case Some(groups) => Some((left, groups))
  }

  /** `n` copies of `x`. */
  function Copies<T>(x: T, n: nat): (r: seq<T>)
    ensures |r| == n && forall i | 0 <= i < n :: r[i] == x
  {
    if n == 0 then [] else [x] + Copies(x, n - 1)
  }

  /** `n` repetitions of a sequence, one after the other. */
  function Repeat<T>(s: seq<T>, n: nat): (r: seq<T>)
    ensures |r| == n * |s|
  {
    if n == 0 then [] else s + Repeat(s, n - 1)
  }

  /** Part b: five copies of the row joined by unknown springs, and five
      copies of the group lengths. */
  function Unfold(record: (string, seq<nat>)): (string, seq<nat>) {
    (Join(Copies(record.0, 5), "?"), Repeat(record.1, 5))
  }

  /** The unfolded row written out: the row five times with a `?` between
      copies, and the group lengths five times over. */
  lemma UnfoldShape(record: (string, seq<nat>))
    ensures var (p, g) := record;
      Unfold(record) == (p + "?" + p + "?" + p + "?" + p + "?" + p, g + g + g + g + g)
  {
    var (p, g) := record;
    assert Join(Copies(p, 1), "?") == p;
    assert Copies(p, 2)[1..] == Copies(p, 1);
    assert Join(Copies(p, 2), "?") == p + "?" + p;
    assert Copies(p, 3)[1..] == Copies(p, 2);
    assert Join(Copies(p, 3), "?") == p + "?" + (p + "?" + p);
    assert Copies(p, 4)[1..] == Copies(p, 3);
    assert Join(Copies(p, 4), "?") == p + "?" + (p + "?" + (p + "?" + p));
    assert Copies(p, 5)[1..] == Copies(p, 4);
    assert Join(Copies(p, 5), "?") == p + "?" + (p + "?" + (p + "?" + (p + "?" + p)));
    assert p + "?" + (p + "?" + (p + "?" + (p + "?" + p))) == p + "?" + p + "?" + p + "?" + p + "?" + p;
    assert Repeat(g, 1) == g + [] == g;
    assert Repeat(g, 2) == g + g;
    assert Repeat(g, 3) == g + (g + g) == g + g + g;
    assert Repeat(g, 4) == g + (g + g + g) == g + g + g + g;
    assert Repeat(g, 5) == g + (g + g + g + g) == g + g + g + g + g;
  }

  lemma ValidConcat(a: string, b: string)
    requires Valid(a) && Valid(b)
    ensures Valid(a + b)
  {
    assert forall i | |a| <= i < |a + b| :: (a + b)[i] == b[i - |a|];
  }

  lemma PositiveConcat(a: seq<nat>, b: seq<nat>)
    requires Positive(a) && Positive(b)
    ensures Positive(a + b)
  {
    assert forall i | |a| <= i < |a + b| :: (a + b)[i] == b[i - |a|];
  }

  /** An unfolded row of a valid row is valid, and its group lengths are
      positive when the original ones are, so `SolveIsArrangements` covers
      part b too. */
  lemma UnfoldValid(record: (string, seq<nat>))
    requires Valid(record.0) && Positive(record.1)
    ensures Valid(Unfold(record).0) && Positive(Unfold(record).1)
  {
    UnfoldShape(record);
    var (p, g) := record;
    var q := p + "?";
    assert Valid("?");
    ValidConcat(p, "?");
    ValidConcat(q, p);
    ValidConcat(q + p, "?");
    ValidConcat(q + p + "?", p);
    ValidConcat(q + p + "?" + p, "?");
    ValidConcat(q + p + "?" + p + "?", p);
    ValidConcat(q + p + "?" + p + "?" + p, "?");
    ValidConcat(q + p + "?" + p + "?" + p + "?", p);
    PositiveConcat(g, g);
    PositiveConcat(g + g, g);
    PositiveConcat(g + g + g, g);
    PositiveConcat(g + g + g + g, g);
  }

  // ---------------------------------------------------------------------
  // Exec

  /** The sum of the counts over all records, unfolded for part b; `None`
      when a count aborts. */
  function SumCounts(records: seq<(string, seq<nat>)>, unfold: bool): Option<nat> {
    if records == [] then Some(0)
    else
      var record := if unfold then Unfold(records[0]) else records[0];
      match (Solve(record.0, record.1, false), SumCounts(records[1..], unfold))
      case (Some(a), Some(b)) => Some(a + b)
      case _ => None
  }

  function ParseRecords(source: string): Option<seq<(string, seq<nat>)>> {
    var lines := Split(source, "\n");
    AllSome(seq(|lines|, k requires 0 <= k < |lines| => ParseLine(lines[k])))
  }

  /** `exec`: every line parsed, then the counts for part a and part b. */
  function ExecOf(source: string): Option<(nat, nat)> {
    match ParseRecords(source)
    case None => None
    case Some(records) =>
      match (SumCounts(records, false), SumCounts(records, true))
      case (Some(a), Some(b)) => Some((a, b))
      case _ => None
  }

  /** The sum of the numbers of arrangements of all records. */
  function TotalArrangements(records: seq<(string, seq<nat>)>, unfold: bool): nat {
    if records == [] then 0
    else
      var record := if unfold then Unfold(records[0]) else records[0];
      Arrangements(record.0, record.1) + TotalArrangements(records[1..], unfold)
  }

  predicate WellFormed(records: seq<(string, seq<nat>)>) {
    forall k | 0 <= k < |records| :: Valid(records[k].0) && Positive(records[k].1)
  }

  /** On well-formed records both parts are the total numbers of
      arrangements, of the rows and of the unfolded rows. */
  lemma {:induction false} SumCountsArrangements(records: seq<(string, seq<nat>)>, unfold: bool)
    requires WellFormed(records)
    ensures SumCounts(records, unfold) == Some(TotalArrangements(records, unfold))
  {
    if records != [] {
      var record := if unfold then Unfold(records[0]) else records[0];
      assert Solve(record.0, record.1, false) == Some(Arrangements(record.0, record.1)) by {
        if unfold {
          UnfoldValid(records[0]);
        }
        SolveIsArrangements(record.0, record.1);
      }
      assert SumCounts(records[1..], unfold) == Some(TotalArrangements(records[1..], unfold)) by {
        assert WellFormed(records[1..]) by {
          forall k | 0 <= k < |records| - 1 ensures records[1..][k] == records[k + 1] { }
        }
        SumCountsArrangements(records[1..], unfold);
      }
    }
  }

  lemma ExecArrangements(source: string)
    requires ParseRecords(source).Some? && WellFormed(ParseRecords(source).value)
    ensures var records := ParseRecords(source).value;
      ExecOf(source) == Some((TotalArrangements(records, false), TotalArrangements(records, true)))
  {
    SumCountsArrangements(ParseRecords(source).value, false);
    SumCountsArrangements(ParseRecords(source).value, true);
  }

  // ---------------------------------------------------------------------
  // Examples

  /** The parsing test. */
  lemma ExampleParse()
    ensures ParseLine("#.#.### 1,1,3") == Some(("#.#.###", [1, 1, 3]))
  {
    var line := "#.#.### 1,1,3";
    FindAtFirstChar(line, " ", 7);
    SplitFirst(line, " ", 7);
    assert line[..7] == "#.#.###" && line[8..] == "1,1,3";
    ExampleGroups();
  }

  lemma ExampleGroups()
    ensures ParseNats(Split("1,1,3", ",")) == Some([1, 1, 3])
  {
    ExampleGroupsSplit();
    ExampleGroupsParse();
  }

  lemma ExampleGroupsSplit()
    ensures Split("1,1,3", ",") == ["1", "1", "3"]
  {
    assert "1,1,3" == "1" + "," + "1,3";
    FindAtFirstChar("1,1,3", ",", 1);
    SplitFirst("1,1,3", ",", 1);
    assert "1,3" == "1" + "," + "3";
    FindAtFirstChar("1,3", ",", 1);
    SplitFirst("1,3", ",", 1);
    NoCharOccurs("3", ',');
    SplitNone("3", ",");
  }

  lemma ExampleGroupsParse()
    ensures ParseNats(["1", "1", "3"]) == Some([1, 1, 3])
  {
    assert ParseNat("1") == Some(1) && ParseNat("3") == Some(3);
    var r := ParseNats(["1", "1", "3"]);
    assert r.Some? && |r.value| == 3;
    assert r.value[0] == 1 && r.value[1] == 1 && r.value[2] == 3;
    var expected: seq<nat> := [1, 1, 3];
    assert r.value == expected;
  }

  /** A row whose unknown spring must be damaged: "?.#" with groups 1,1 has
      one arrangement. */
  lemma ExampleSolve()
    ensures Solve("?.#", [1, 1], false) == Some(1)
  {
    assert "?.#"[1..] == ".#" && ['#'] + ".#" == "#.#" && ['.'] + ".#" == "..#";
    assert "#.#"[1..] == ".#" && ".#"[1..] == "#" && "#"[1..] == "" && "..#"[1..] == ".#";
    assert [1, 1][1..] == [1] && [0, 1][1..] == [1] && [1][1..] == [];
    assert Sum([0]) == 0 && Sum([0, 1]) == 1;
    assert Solve("", [0], true) == Some(1);
    assert Solve("#", [1], false) == Some(1);
    assert Solve(".#", [0, 1], true) == Some(1);
    assert Solve("#.#", [1, 1], false) == Some(1);
    assert Solve("", [0, 1], true) == Some(0);
    assert Solve("#", [1, 1], false) == Some(0);
    assert Solve(".#", [1, 1], false) == Some(0);
    assert Solve("..#", [1, 1], false) == Some(0);
  }
}
