/** Day 5: seeds and ranges of seeds pass through successive groups of
    offset maps ("seed-to-soil", "soil-to-fertilizer", ...); the answers
    are the lowest location reached by a single seed (part 1) and by a
    range of seeds (part 2). */
module Day5 {
  import opened Common

  /** A range of values, both ends included as `process_map` reads them. */
  type Range = (int, int)

  /** One line of a map group: values in `range` are shifted by `offset`. */
  datatype Map = Map(range: Range, offset: int) {
    /** `Map::offset`. */
    function Offset(value: int): int {
      value + offset
    }
  }

  /** The map of a line "finish start length": the range is stored as
      `(start, start + length)`, and the offset moves `start` to `finish`. */
  function MapOf(finish: nat, start: nat, length: nat): (m: Map)
    ensures m.range == (start, start + length)
    ensures m.Offset(start) == finish && m.Offset(start + length) == finish + length
  {
    Map((start, start + length), finish - start)
  }

  // ---------------------------------------------------------------------
  // Parsing

  predicate StartsWith(s: string, prefix: string) {
    |prefix| <= |s| && s[..|prefix|] == prefix
  }

  predicate EndsWith(s: string, suffix: string) {
    |suffix| <= |s| && s[|s| - |suffix|..] == suffix
  }

  /** The kinds of line `parse_input` tells apart, in the order it tests
      them. */
  datatype Line = Seeds(numbers: Option<seq<nat>>) | Header | Mapping(entry: Option<Map>) | Blank

  /** The numbers after "seeds: ", separated by single spaces. */
  function SeedNumbers(line: string): Option<seq<nat>> {
    match SplitOnce(line, ": ")
    case None => None
    case Some((_, numbers)) => ParseNats(Split(numbers, " "))
  }

  /** The first three space-separated numbers of a mapping line; anything
      after them is ignored. */
  function MapLine(line: string): Option<Map> {
    var parts := Split(line, " ");
    if |parts| < 3 then None
    else
      match (ParseNat(parts[0]), ParseNat(parts[1]), ParseNat(parts[2]))
      case (Some(finish), Some(start), Some(length)) => Some(MapOf(finish, start, length))
      case _ => None
  }

  function KindOf(line: string): Line {
    if StartsWith(line, "seeds: ") then Seeds(SeedNumbers(line))
    else if EndsWith(line, " map:") then Header
    else if |line| > 0 then Mapping(MapLine(line))
    else Blank
  }

  /** The state of `parse_input` between lines. */
  datatype Parser = Parser(seeds: seq<nat>, maps: seq<seq<Map>>, current: seq<Map>)

  /** A header closes the current group, but only if it holds a map. */
  function Flush(p: Parser): Parser {
    if |p.current| > 0 then Parser(p.seeds, p.maps + [p.current], []) else p
  }

  /** One line of `parse_input`; `None` where the source panics on a number
      that does not parse or a mapping line with fewer than three parts. */
  function Feed(p: Parser, kind: Line): Option<Parser> {
    match kind
    case Seeds(None) => None
    case Seeds(Some(numbers)) => Some(p.(seeds := p.seeds + numbers))
    case Header => Some(Flush(p))
    case Mapping(None) => None
    case Mapping(Some(m)) => Some(p.(current := p.current + [m]))
    case Blank => Some(p)
  }

  function FeedAll(lines: seq<string>): Option<Parser> {
    if lines == [] then Some(Parser([], [], []))
    else
      match FeedAll(lines[..|lines| - 1])
      case None => None
      case Some(p) => Feed(p, KindOf(lines[|lines| - 1]))
  }

  /** `parse_input`: the seeds and the groups of maps, the last group closed
      at the end of the input. */
  function ParseInput(lines: seq<string>): Option<(seq<nat>, seq<seq<Map>>)> {
    match FeedAll(lines)
    case None => None
    case Some(p) => var q := Flush(p); Some((q.seeds, q.maps))
  }

  /** Every map of every line, in input order. */
  function MapsOf(kinds: seq<Line>): seq<Map> {
    if kinds == [] then []
    else
      var last := kinds[|kinds| - 1];
      MapsOf(kinds[..|kinds| - 1]) + (if last.Mapping? && last.entry.Some? then [last.entry.value] else [])
  }

  /** Every seed of every seeds line, in input order. */
  function SeedsOf(kinds: seq<Line>): seq<nat> {
    if kinds == [] then []
    else
      var last := kinds[|kinds| - 1];
      SeedsOf(kinds[..|kinds| - 1]) + (if last.Seeds? && last.numbers.Some? then last.numbers.value else [])
  }

  function Concat(groups: seq<seq<Map>>): seq<Map> {
    if groups == [] then [] else Concat(groups[..|groups| - 1]) + groups[|groups| - 1]
  }

  function Kinds(lines: seq<string>): seq<Line> {
    seq(|lines|, k requires 0 <= k < |lines| => KindOf(lines[k]))
  }

  /** What `parse_input` keeps between lines: no group is empty, and the
      groups followed by the open group are every map read so far. */
  predicate Consistent(p: Parser, kinds: seq<Line>) {
    && (forall g | 0 <= g < |p.maps| :: |p.maps[g]| > 0)
    && Concat(p.maps) + p.current == MapsOf(kinds)
    && p.seeds == SeedsOf(kinds)
  }

  lemma FlushConsistent(p: Parser, kinds: seq<Line>)
    requires Consistent(p, kinds)
    ensures Consistent(Flush(p), kinds)
  {
    if |p.current| > 0 {
      assert Concat(p.maps + [p.current]) == Concat(p.maps) + p.current by {
        assert (p.maps + [p.current])[..|p.maps|] == p.maps;
      }
    }
  }

  lemma FeedConsistent(p: Parser, kinds: seq<Line>, kind: Line)
    requires Consistent(p, kinds) && Feed(p, kind).Some?
    ensures Consistent(Feed(p, kind).value, kinds + [kind])
  {
    var all := kinds + [kind];
    assert all[..|all| - 1] == kinds;
    if kind.Header? {
      FlushConsistent(p, kinds);
    } else if kind.Mapping? {
      assert Concat(p.maps) + (p.current + [kind.entry.value]) == (Concat(p.maps) + p.current) + [kind.entry.value];
    }
  }

  lemma {:induction false} FeedAllConsistent(lines: seq<string>)
    ensures FeedAll(lines).Some? ==> Consistent(FeedAll(lines).value, Kinds(lines))
  {
    if lines != [] {
      var init := lines[..|lines| - 1];
      FeedAllConsistent(init);
      KindsSnoc(lines);
      if FeedAll(init).Some? {
        var p := FeedAll(init).value;
        if Feed(p, KindOf(lines[|lines| - 1])).Some? {
          FeedConsistent(p, Kinds(init), KindOf(lines[|lines| - 1]));
        }
      }
    }
  }

  lemma KindsSnoc(lines: seq<string>)
    requires lines != []
    ensures Kinds(lines) == Kinds(lines[..|lines| - 1]) + [KindOf(lines[|lines| - 1])]
  {
    var init := lines[..|lines| - 1];
    var a, b := Kinds(lines), Kinds(init) + [KindOf(lines[|lines| - 1])];
    assert |a| == |b|;
    forall k | 0 <= k < |a| ensures a[k] == b[k] {
      if k < |init| {
        assert init[k] == lines[k];
        assert b[k] == Kinds(init)[k];
      }
    }
  }

  /** Parsing keeps every map, in input order, and splits them into non-empty
      groups; the seeds are those of every seeds line, in input order. */
  lemma ParseInputGroups(lines: seq<string>)
    ensures ParseInput(lines).Some? ==>
      var (seeds, maps) := ParseInput(lines).value;
      && (forall g | 0 <= g < |maps| :: |maps[g]| > 0)
      && Concat(maps) == MapsOf(Kinds(lines))
      && seeds == SeedsOf(Kinds(lines))
  {
    FeedAllConsistent(lines);
    if FeedAll(lines).Some? {
      var p := FeedAll(lines).value;
      FlushConsistent(p, Kinds(lines));
      var q := Flush(p);
      assert q.current == [];
      assert Concat(q.maps) + [] == Concat(q.maps);
    }
  }

  /** A line "dest src len" of the sample input, as the parsing test
      expects it. */
  lemma ExampleMapOf()
    ensures MapOf(50, 98, 2) == Map((98, 100), -48)
    ensures MapOf(52, 50, 48) == Map((50, 98), 2)
  {
  }

  /** `parse_input` as the loop the source runs. */
  method ParseLines(lines: seq<string>) returns (r: Option<(seq<nat>, seq<seq<Map>>)>)
    ensures r == ParseInput(lines)
  {
    var seeds: seq<nat> := [];
    var maps: seq<seq<Map>> := [];
    var current: seq<Map> := [];
    for i := 0 to |lines|
      invariant FeedAll(lines[..i]) == Some(Parser(seeds, maps, current))
    {
      assert lines[..i + 1][..i] == lines[..i];
      var line := lines[i];
      if StartsWith(line, "seeds: ") {
        var numbers := SeedNumbers(line);
        if numbers.None? {
          FeedAllStops(lines, i);
          return None;
        }
        seeds := seeds + numbers.value;
      } else if EndsWith(line, " map:") {
        if |current| > 0 {
          maps := maps + [current];
          current := [];
        }
      } else if |line| > 0 {
        var m := MapLine(line);
        if m.None? {
          FeedAllStops(lines, i);
          return None;
        }
        current := current + [m.value];
      }
    }
    assert lines[..|lines|] == lines;
    if |current| > 0 {
      maps := maps + [current];
    }
    r := Some((seeds, maps));
  }

  /** A line that fails to parse ends parsing with `None`. */
  lemma {:induction false} FeedAllStops(lines: seq<string>, i: nat)
    requires i < |lines| && FeedAll(lines[..i]).Some?
    requires Feed(FeedAll(lines[..i]).value, KindOf(lines[i])).None?
    ensures ParseInput(lines).None?
  {
    FeedAllNoneStays(lines, i + 1);
  }

  lemma {:induction false} FeedAllNoneStays(lines: seq<string>, i: nat)
    requires 0 < i <= |lines|
    requires FeedAll(lines[..i - 1]).None? || Feed(FeedAll(lines[..i - 1]).value, KindOf(lines[i - 1])).None?
    ensures FeedAll(lines).None?
    decreases |lines| - i
  {
    assert lines[..i][..i - 1] == lines[..i - 1];
    if i == |lines| {
      assert lines[..i] == lines;
    } else {
      FeedAllNoneStays(lines, i + 1);
    }
  }

  // ---------------------------------------------------------------------
  // Remapping one range through one group

  /** Reference: where a single value goes through one group: the first map
      whose range holds it, both ends included, shifts it; a value no map
      holds stays where it is. */
  function Lookup(v: int, group: seq<Map>): int {
    if group == [] then v
    else if group[0].range.0 <= v <= group[0].range.1 then group[0].Offset(v)
    else Lookup(v, group[1..])
  }

  /** A range that is at most one value backwards: `(start, start - 1)` is
      how a part-2 seed of length zero reads. */
  predicate Ordered(r: Range) {
    r.0 <= r.1 + 1
  }

  /** The ranges `process_map` produces for `(min, max)` from the map
      `group[0]` on, in the order it pushes them; the final entry is what
      is left of the range when no map swallowed it. */
  function Chomp(min: int, max: int, group: seq<Map>): (r: seq<Range>)
    requires min <= max + 1
    ensures forall k | 0 <= k < |r| :: Ordered(r[k])
    decreases |group|
  {
    if group == [] then [(min, max)]
    else
      var m := group[0];
      var (lo, hi) := m.range;
      if lo <= min <= hi then
        if max > hi then [(m.Offset(min), m.Offset(hi))] + Chomp(hi, max, group[1..])
        else [(m.Offset(min), m.Offset(max))]
      else if lo <= max < hi then
        [(m.Offset(lo), m.Offset(max))] + Chomp(min, lo - 1, group[1..])
      else Chomp(min, max, group[1..])
  }

  /** A single value comes back as the single value `Lookup` gives. */
  lemma {:induction false} ChompPoint(v: int, group: seq<Map>)
    ensures Chomp(v, v, group) == [(Lookup(v, group), Lookup(v, group))]
    decreases |group|
  {
    if group != [] && !(group[0].range.0 <= v <= group[0].range.1) {
      ChompPoint(v, group[1..]);
    }
  }

  /** The number of values the ranges cover, with multiplicity. */
  function Size(rs: seq<Range>): int {
    if rs == [] then 0 else Size(rs[..|rs| - 1]) + (rs[|rs| - 1].1 - rs[|rs| - 1].0 + 1)
  }

  lemma {:induction false} SizeConcat(a: seq<Range>, b: seq<Range>)
    ensures Size(a + b) == Size(a) + Size(b)
    decreases |b|
  {
    if b == [] {
      assert a + b == a;
    } else {
      assert (a + b)[..|a + b| - 1] == a + b[..|b| - 1];
      SizeConcat(a, b[..|b| - 1]);
    }
  }

  /** Nothing is lost: the pieces cover at least as many values as the
      range.  (A value at the inclusive end of a map's range that the range
      runs past is counted twice: once shifted and once left over.) */
  lemma {:induction false} ChompKeepsAll(min: int, max: int, group: seq<Map>)
    requires min <= max + 1
    ensures Size(Chomp(min, max, group)) >= max - min + 1
    decreases |group|
  {
    if group == [] {
      assert Size([(min, max)]) == Size([]) + (max - min + 1);
    } else {
      var m := group[0];
      var (lo, hi) := m.range;
      var piece: Range := if lo <= min <= hi then (m.Offset(min), m.Offset(if max > hi then hi else max))
        else (m.Offset(lo), m.Offset(max));
      assert Size([piece]) == piece.1 - piece.0 + 1 by {
        assert [piece][..0] == [];
      }
      if lo <= min <= hi {
        if max > hi {
          ChompKeepsAll(hi, max, group[1..]);
          SizeConcat([piece], Chomp(hi, max, group[1..]));
        }
      } else if lo <= max < hi {
        ChompKeepsAll(min, lo - 1, group[1..]);
        SizeConcat([piece], Chomp(min, lo - 1, group[1..]));
      } else {
        ChompKeepsAll(min, max, group[1..]);
      }
    }
  }

  /** Some range of `rs` holds `x`. */
  predicate Holds(rs: seq<Range>, x: int) {
    exists k | 0 <= k < |rs| :: rs[k].0 <= x <= rs[k].1
  }

  /** A shift the group may give `v`: none, or the offset of one of its
      maps whose range holds `v`. */
  predicate ShiftOf(group: seq<Map>, v: int, d: int) {
    d == 0 || exists j | 0 <= j < |group| :: group[j].range.0 <= v <= group[j].range.1 && group[j].offset == d
  }

  /** No value of the seed range is lost: each comes out in some chomped
      range, unshifted or shifted by a map that holds it. */
  lemma {:induction false} ChompCovers(min: int, max: int, group: seq<Map>, v: int)
    requires min <= max + 1 && min <= v <= max
    ensures exists d :: ShiftOf(group, v, d) && Holds(Chomp(min, max, group), v + d)
    decreases |group|
  {
    if group == [] {
      assert ShiftOf(group, v, 0) && Holds([(min, max)], v + 0);
    } else {
      var m := group[0];
      var (lo, hi) := m.range;
      var rest := group[1..];
      if lo <= v <= hi && (lo <= min <= hi || (lo <= max < hi && v >= lo)) {
        var r := Chomp(min, max, group);
        assert ShiftOf(group, v, m.offset) by {
          assert group[0] == m;
        }
        assert r[0].0 <= v + m.offset <= r[0].1;
      } else if lo <= min <= hi {
        ChompCoversRest(hi, max, group, v, (m.Offset(min), m.Offset(hi)));
      } else if lo <= max < hi {
        ChompCoversRest(min, lo - 1, group, v, (m.Offset(lo), m.Offset(max)));
      } else {
        ChompCovers(min, max, rest, v);
        var d :| ShiftOf(rest, v, d) && Holds(Chomp(min, max, rest), v + d);
        ShiftLift(group, v, d);
      }
    }
  }

  /** The step of `ChompCovers` where `v` is left to the later maps with
      the range `(min, max)`, after `piece`. */
  lemma ChompCoversRest(min: int, max: int, group: seq<Map>, v: int, piece: Range)
    requires group != [] && min <= max + 1 && min <= v <= max
    ensures exists d :: ShiftOf(group, v, d) && Holds([piece] + Chomp(min, max, group[1..]), v + d)
    decreases |group|, 0
  {
    var rest := group[1..];
    ChompCovers(min, max, rest, v);
    var d :| ShiftOf(rest, v, d) && Holds(Chomp(min, max, rest), v + d);
    ShiftLift(group, v, d);
    var rs := Chomp(min, max, rest);
    var k :| 0 <= k < |rs| && rs[k].0 <= v + d <= rs[k].1;
    assert ([piece] + rs)[k + 1] == rs[k];
  }

  /** A shift a map of the later maps may give is one the group may give. */
  lemma ShiftLift(group: seq<Map>, v: int, d: int)
    requires group != [] && ShiftOf(group[1..], v, d)
    ensures ShiftOf(group, v, d)
  {
    if d != 0 {
      var j :| 0 <= j < |group[1..]| && group[1..][j].range.0 <= v <= group[1..][j].range.1 && group[1..][j].offset == d;
      assert group[j + 1] == group[1..][j];
    }
  }

  /** A range that no map of the group touches comes back unchanged. */
  lemma {:induction false} ChompUntouched(min: int, max: int, group: seq<Map>)
    requires min <= max
    requires forall k | 0 <= k < |group| :: max < group[k].range.0 || group[k].range.1 < min
    ensures Chomp(min, max, group) == [(min, max)]
    decreases |group|
  {
    if group != [] {
      assert forall k | 0 <= k < |group| - 1 :: group[1..][k] == group[k + 1];
      ChompUntouched(min, max, group[1..]);
    }
  }

  /** `process_map`: each map in turn bites off the part of the range it
      holds; the walk stops once the range is swallowed, and whatever is
      left is kept as it is. */
  method ProcessMap(seed: Range, group: seq<Map>) returns (chomped: seq<Range>)
    requires Ordered(seed)
    ensures chomped == Chomp(seed.0, seed.1, group)
  {
    var devoured := false;
    chomped := [];
    var (min, max) := seed;
    for i := 0 to |group|
      invariant min <= max + 1 && !devoured
      invariant chomped + Chomp(min, max, group[i..]) == Chomp(seed.0, seed.1, group)
    {
      var m := group[i];
      assert group[i..][1..] == group[i + 1..];
      if min >= m.range.0 && min <= m.range.1 {
        if max > m.range.1 {
          chomped := chomped + [(m.Offset(min), m.Offset(m.range.1))];
          if max + 1 == m.range.1 {
            devoured := true;
            break;
          }
          min := m.range.1;
        } else {
          chomped := chomped + [(m.Offset(min), m.Offset(max))];
          devoured := true;
          break;
        }
      } else if max >= m.range.0 && max < m.range.1 {
        if min <= m.range.0 {
          chomped := chomped + [(m.Offset(m.range.0), m.Offset(max))];
          if min == m.range.0 {
            devoured := true;
            break;
          }
          max := m.range.0 - 1;
        } else {
          // The source splits the range here and recurses on both halves;
          // no range with min <= max + 1 gets this far.
          assert false;
        }
      }
    }
    if !devoured {
      chomped := chomped + [(min, max)];
    }
  }

  /** The test's group, with its ranges read as inclusive: single seeds go
      where `Lookup` sends them, the ends of each range included. */
  lemma ExampleSingleNumbers()
    ensures var group := [Map((98, 99), -48), Map((50, 97), 2)];
      && Chomp(79, 79, group) == [(81, 81)]
      && Chomp(14, 14, group) == [(14, 14)]
      && Chomp(55, 55, group) == [(57, 57)]
      && Chomp(13, 13, group) == [(13, 13)]
      && Chomp(99, 99, group) == [(51, 51)]
      && Chomp(97, 97, group) == [(99, 99)]
  {
    var group := [Map((98, 99), -48), Map((50, 97), 2)];
    assert group[1..] == [Map((50, 97), 2)];
    assert group[1..][1..] == [];
    ChompPoint(79, group);
    ChompPoint(14, group);
    ChompPoint(55, group);
    ChompPoint(13, group);
    ChompPoint(99, group);
    ChompPoint(97, group);
  }

  /** A map whose range lies strictly inside the seed range meets neither
      test of `process_map`, so it is passed over: the range comes back
      whole, although the map moves its values one by one. */
  lemma ExampleInnerMapPassedOver()
    ensures Chomp(40, 120, [Map((50, 99), 2)]) == [(40, 120)]
    ensures Lookup(60, [Map((50, 99), 2)]) == 62
  {
    assert [Map((50, 99), 2)][1..] == [];
  }

  /** The end stored for "50 98 2" is 100, and it is treated as part of the
      range: the value 100 is moved to 52 along with 98 and 99. */
  lemma ExampleInclusiveEnd()
    ensures Lookup(100, [MapOf(50, 98, 2)]) == 52
    ensures Lookup(101, [MapOf(50, 98, 2)]) == 101
  {
    assert [MapOf(50, 98, 2)][1..] == [];
  }

  // ---------------------------------------------------------------------
  // Remapping through every group

  /** Every range of `works` through one group, in order. */
  function Through(works: seq<Range>, group: seq<Map>): (r: seq<Range>)
    requires forall k | 0 <= k < |works| :: Ordered(works[k])
    ensures forall k | 0 <= k < |r| :: Ordered(r[k])
  {
    if works == [] then []
    else
      var last := works[|works| - 1];
      assert Ordered(last);
      Through(works[..|works| - 1], group) + Chomp(last.0, last.1, group)
  }

  /** What `process_maps` returns: the seed through the first group, what
      that gives through the second, and so on. */
  function ProcessMapsOf(seed: Range, maps: seq<seq<Map>>): (r: seq<Range>)
    requires Ordered(seed)
    ensures forall k | 0 <= k < |r| :: Ordered(r[k])
  {
    if maps == [] then [seed]
    else Through(ProcessMapsOf(seed, maps[..|maps| - 1]), maps[|maps| - 1])
  }

  /** Reference: where a single value ends up after every group. */
  function Locate(v: int, maps: seq<seq<Map>>): int {
    if maps == [] then v else Lookup(Locate(v, maps[..|maps| - 1]), maps[|maps| - 1])
  }

  /** A single seed stays a single value, and it is the location `Locate`
      gives. */
  lemma {:induction false} ProcessMapsPoint(v: int, maps: seq<seq<Map>>)
    ensures ProcessMapsOf((v, v), maps) == [(Locate(v, maps), Locate(v, maps))]
  {
    if maps != [] {
      var init := maps[..|maps| - 1];
      ProcessMapsPoint(v, init);
      var w := Locate(v, init);
      ChompPoint(w, maps[|maps| - 1]);
      assert [(w, w)][..0] == [];
      assert Through([(w, w)], maps[|maps| - 1]) == Through([], maps[|maps| - 1]) + Chomp(w, w, maps[|maps| - 1]);
    }
  }

  /** With no groups, the seed comes back alone. */
  lemma ProcessMapsNone(seed: Range)
    requires Ordered(seed)
    ensures ProcessMapsOf(seed, []) == [seed]
  {
  }

  /** `process_maps` as the loops the source runs. */
  method ProcessMaps(seed: Range, maps: seq<seq<Map>>) returns (toWork: seq<Range>)
    requires Ordered(seed)
    ensures toWork == ProcessMapsOf(seed, maps)
  {
    toWork := [seed];
    for i := 0 to |maps|
      invariant toWork == ProcessMapsOf(seed, maps[..i])
    {
      assert maps[..i + 1][..i] == maps[..i];
      var result := [];
      for j := 0 to |toWork|
        invariant result == Through(toWork[..j], maps[i])
      {
        assert toWork[..j + 1][..j] == toWork[..j];
        var chomped := ProcessMap(toWork[j], maps[i]);
        result := result + chomped;
      }
      assert toWork[..|toWork|] == toWork;
      toWork := result;
    }
    assert maps[..|maps|] == maps;
  }

  // ---------------------------------------------------------------------
  // The answers

  /** Every seed range through every group, one after the other. */
  function Outputs(seeds: seq<Range>, maps: seq<seq<Map>>): (r: seq<Range>)
    requires forall k | 0 <= k < |seeds| :: Ordered(seeds[k])
  {
    if seeds == [] then []
    else Outputs(seeds[..|seeds| - 1], maps) + ProcessMapsOf(seeds[|seeds| - 1], maps)
  }

  /** Part 1 reads every seed as a range of one value. */
  function PointSeeds(seeds: seq<nat>): (r: seq<Range>)
    ensures |r| == |seeds| && forall k | 0 <= k < |r| :: r[k] == (seeds[k], seeds[k])
  {
    seq(|seeds|, k requires 0 <= k < |seeds| => (seeds[k] as int, seeds[k] as int))
  }

  /** Part 2 reads the seeds in pairs (start, length) as the inclusive range
      from start to start + length - 1; an odd count has no last length. */
  function PairSeeds(seeds: seq<nat>): (r: Option<seq<Range>>)
    ensures r.None? <==> |seeds| % 2 == 1
    ensures r.Some? ==> |r.value| == |seeds| / 2
    ensures r.Some? ==> forall k | 0 <= k < |r.value| :: r.value[k] == (seeds[2 * k] as int, seeds[2 * k] as int + seeds[2 * k + 1] - 1)
  {
    if |seeds| % 2 == 1 then None
    else Some(seq(|seeds| / 2, k requires 0 <= k < |seeds| / 2 => (seeds[2 * k] as int, seeds[2 * k] as int + seeds[2 * k + 1] - 1)))
  }

  /** The lowest start among the ranges; `None` when there is none. */
  function MinStart(rs: seq<Range>): (r: Option<int>)
    ensures r.None? <==> rs == []
    ensures r.Some? ==> (exists k | 0 <= k < |rs| :: rs[k].0 == r.value) && forall k | 0 <= k < |rs| :: r.value <= rs[k].0
  {
    if rs == [] then None
    else
      var m := MinStart(rs[..|rs| - 1]);
      var last := rs[|rs| - 1].0;
      assert forall k | 0 <= k < |rs| - 1 :: rs[..|rs| - 1][k] == rs[k];
      if m.Some? && m.value <= last then m else Some(last)
  }

  /** `exec` once the input is parsed: the lowest location of part 1 and of
      part 2; `None` where the source panics (no seeds, or an odd number of
      seeds for part 2). */
  function Answers(seeds: seq<nat>, maps: seq<seq<Map>>): Option<(int, int)> {
    var part1 := MinStart(Outputs(PointSeeds(seeds), maps));
    match PairSeeds(seeds)
    case None => None
    case Some(pairs) =>
      var part2 := MinStart(Outputs(pairs, maps));
      if part1.Some? && part2.Some? then Some((part1.value, part2.value)) else None
  }

  /** The answers for the whole input. */
  function ExecOf(source: string): Option<(int, int)> {
    match ParseInput(Split(source, "\n"))
    case None => None
    case Some((seeds, maps)) => Answers(seeds, maps)
  }

  /** Part 1 sends each seed on its own: the outputs are the seeds'
      locations, in order. */
  lemma {:induction false} OutputsOfPoints(seeds: seq<nat>, maps: seq<seq<Map>>)
    ensures Outputs(PointSeeds(seeds), maps) ==
      seq(|seeds|, k requires 0 <= k < |seeds| => (Locate(seeds[k], maps), Locate(seeds[k], maps)))
  {
    if seeds != [] {
      var init := seeds[..|seeds| - 1];
      OutputsOfPoints(init, maps);
      assert PointSeeds(seeds)[..|seeds| - 1] == PointSeeds(init);
      ProcessMapsPoint(seeds[|seeds| - 1], maps);
    }
  }

  /** Part 1 is the lowest location of any seed. */
  lemma Part1IsLowestLocation(seeds: seq<nat>, maps: seq<seq<Map>>)
    requires Answers(seeds, maps).Some?
    ensures exists k | 0 <= k < |seeds| :: Answers(seeds, maps).value.0 == Locate(seeds[k], maps)
    ensures forall k | 0 <= k < |seeds| :: Answers(seeds, maps).value.0 <= Locate(seeds[k], maps)
  {
    OutputsOfPoints(seeds, maps);
    var outs := Outputs(PointSeeds(seeds), maps);
    assert forall k | 0 <= k < |seeds| :: outs[k].0 == Locate(seeds[k], maps);
  }

  /** Every seed range and every group, with the loops the source runs. */
  method AllOutputs(seeds: seq<Range>, maps: seq<seq<Map>>) returns (out: seq<Range>)
    requires forall k | 0 <= k < |seeds| :: Ordered(seeds[k])
    ensures out == Outputs(seeds, maps)
  {
    out := [];
    for i := 0 to |seeds|
      invariant out == Outputs(seeds[..i], maps)
    {
      assert seeds[..i + 1][..i] == seeds[..i];
      var more := ProcessMaps(seeds[i], maps);
      out := out + more;
    }
    assert seeds[..|seeds|] == seeds;
  }

  /** `exec`. */
  method Exec(source: string) returns (r: Option<(int, int)>)
    ensures r == ExecOf(source)
  {
    var parsed := ParseLines(Split(source, "\n"));
    if parsed.None? {
      return None;
    }
    var (seeds, maps) := parsed.value;
    var part1 := AllOutputs(PointSeeds(seeds), maps);
    var pairs := PairSeeds(seeds);
    if pairs.None? {
      return None;
    }
    var part2 := AllOutputs(pairs.value, maps);
    var low1, low2 := MinStart(part1), MinStart(part2);
    if low1.None? || low2.None? {
      return None;
    }
    r := Some((low1.value, low2.value));
  }

  /** The input "seeds: 1 10" with the single map "10 1 1": seed 1 goes to 10
      and seed 10 stays, so part 1 is 10; the range 1..10 keeps 2..10 after
      1..2 is moved to 10..11, so part 2 is 2. */
  lemma ExampleAnswers()
    ensures Answers([1, 10], [[MapOf(10, 1, 1)]]) == Some((10, 2))
  {
    ExamplePointSeeds();
    ExamplePairSeeds();
  }

  /** Both seeds end up at 10: seed 1 is moved by the map, seed 10 is
      outside it. */
  lemma ExamplePointSeeds()
    ensures MinStart(Outputs(PointSeeds([1, 10]), [[MapOf(10, 1, 1)]])) == Some(10)
  {
    var maps := [[MapOf(10, 1, 1)]];
    ExampleLocate();
    OutputsOfPoints([1, 10], maps);
    var outs := Outputs(PointSeeds([1, 10]), maps);
    assert outs == [(10, 10), (10, 10)];
    assert outs[..1][..0] == [];
  }

  lemma ExampleLocate()
    ensures Locate(1, [[MapOf(10, 1, 1)]]) == 10 && Locate(10, [[MapOf(10, 1, 1)]]) == 10
  {
    var maps := [[MapOf(10, 1, 1)]];
    var group := maps[0];
    assert maps[..0] == [];
    assert Locate(1, maps) == Lookup(1, group) == 10;
    assert Locate(10, maps) == Lookup(10, group) == 10 by {
      assert group[1..] == [];
    }
  }

  /** The pair (1, 10) is the range 1..=10: its start 1 moves to 10, and
      the rest, 2..=10, stays. */
  lemma ExamplePairSeeds()
    ensures PairSeeds([1, 10]) == Some([(1, 10)])
    ensures MinStart(Outputs([(1, 10)], [[MapOf(10, 1, 1)]])) == Some(2)
  {
    var maps := [[MapOf(10, 1, 1)]];
    var group := maps[0];
    assert maps[..0] == [];
    var pairs := PairSeeds([1, 10]).value;
    assert pairs == [(1, 10)];
    assert ProcessMapsOf((1, 10), maps) == [(10, 11), (2, 10)] by {
      assert group[1..] == [];
      assert Chomp(1, 10, group) == [(10, 11)] + [(2, 10)];
      assert Through([(1, 10)], group) == Through([], group) + Chomp(1, 10, group);
    }
    assert Outputs(pairs, maps) == [(10, 11), (2, 10)] by {
      assert pairs[..0] == [];
    }
    var outs := Outputs(pairs, maps);
    assert MinStart(outs[..1]) == Some(10) by {
      assert outs[..1][..0] == [];
    }
  }

  /** `test_example`: the input "seeds: 1 10\n\nseed-to-location map:\n10 1 1"
      (written here as its four lines joined by line breaks) has part one
      10, and part two 2. */
  lemma ExampleExec()
    ensures ExecOf("seeds: 1 10" + "\n" + "" + "\n" + "seed-to-location map:" + "\n" + "10 1 1") == Some((10, 2))
  {
    ExampleExecLines();
    ExampleExecParse();
    ExampleAnswers();
  }

  /** The test input is its four lines. */
  lemma ExampleExecLines()
    ensures Split("seeds: 1 10" + "\n" + "" + "\n" + "seed-to-location map:" + "\n" + "10 1 1", "\n")
      == ["seeds: 1 10", "", "seed-to-location map:", "10 1 1"]
  {
    FourLines("seeds: 1 10", "", "seed-to-location map:", "10 1 1");
    SplitJoin(["seeds: 1 10", "", "seed-to-location map:", "10 1 1"], "\n");
  }

  /** Four lines joined by line breaks. */
  lemma FourLines(a: string, b: string, c: string, d: string)
    ensures a + "\n" + b + "\n" + c + "\n" + d == Join([a, b, c, d], "\n")
  {
    assert [a, b, c, d][1..] == [b, c, d] && [b, c, d][1..] == [c, d] && [c, d][1..] == [d];
    assert Join([c, d], "\n") == c + "\n" + d;
    assert Join([b, c, d], "\n") == b + "\n" + (c + "\n" + d);
  }

  /** The four lines parse to the seeds 1 and 10 and one group holding the
      map "10 1 1". */
  lemma ExampleExecParse()
    ensures ParseInput(["seeds: 1 10", "", "seed-to-location map:", "10 1 1"])
      == Some(([1, 10], [[MapOf(10, 1, 1)]]))
  {
    ExampleSeedsLine();
    ExampleBlankLine();
    ExampleHeaderLine();
    ExampleMapLine();
    ParseFour("seeds: 1 10", "", "seed-to-location map:", "10 1 1", [1, 10], MapOf(10, 1, 1));
  }

  /** A seeds line, a blank line, a header and a mapping line: the seeds
      and one group holding the one map. */
  lemma ParseFour(a: string, b: string, c: string, d: string, seeds: seq<nat>, m: Map)
    requires KindOf(a) == Seeds(Some(seeds)) && KindOf(b) == Blank
    requires KindOf(c) == Header && KindOf(d) == Mapping(Some(m))
    ensures ParseInput([a, b, c, d]) == Some((seeds, [[m]]))
  {
    FeedFour(a, b, c, d);
    ThenFour(a, b, c, d, seeds, m);
    ParseFed([a, b, c, d], Parser(seeds, [], [m]));
    assert Flush(Parser(seeds, [], [m])).maps == [] + [[m]] == [[m]];
  }

  /** The four kinds, fed in turn to the empty parser, leave the seeds and
      one open group holding the one map. */
  lemma ThenFour(a: string, b: string, c: string, d: string, seeds: seq<nat>, m: Map)
    requires KindOf(a) == Seeds(Some(seeds)) && KindOf(b) == Blank
    requires KindOf(c) == Header && KindOf(d) == Mapping(Some(m))
    ensures Then(Then(Then(Then(Some(Parser([], [], [])), a), b), c), d) == Some(Parser(seeds, [], [m]))
  {
    var p := Parser(seeds, [], []);
    assert [] + seeds == seeds && [] + [m] == [m];
    assert Then(Some(Parser([], [], [])), a) == Some(p);
    assert Then(Some(p), b) == Some(p);
    assert Then(Some(p), c) == Some(p);
  }

  /** Input that feeds to a parser parses to that parser's seeds and groups
      once its open group is closed. */
  lemma ParseFed(lines: seq<string>, p: Parser)
    requires FeedAll(lines) == Some(p)
    ensures ParseInput(lines) == Some((Flush(p).seeds, Flush(p).maps))
  {
  }

  /** The empty line is blank. */
  lemma ExampleBlankLine()
    ensures KindOf("") == Blank
  {
  }

  /** Four lines are fed one after the other from the empty parser. */
  lemma FeedFour(a: string, b: string, c: string, d: string)
    ensures FeedAll([a, b, c, d]) == Then(Then(Then(Then(Some(Parser([], [], [])), a), b), c), d)
  {
    var lines := [a, b, c, d];
    assert lines[..3] == [a, b, c] && lines[..3][..2] == [a, b] && lines[..3][..2][..1] == [a];
    assert [a][..0] == [];
    assert FeedAll([a]) == Then(FeedAll([]), a);
    assert FeedAll([a, b]) == Then(FeedAll([a]), b);
    assert FeedAll([a, b, c]) == Then(FeedAll([a, b]), c);
  }

  /** One more line fed to the parser so far, unless it has aborted. */
  function Then(p: Option<Parser>, line: string): (r: Option<Parser>)
    ensures p.None? ==> r.None?
  {
    match p
    case None => None
    case Some(p) => Feed(p, KindOf(line))
  }

  /** "seeds: 1 10" is a seeds line with the seeds 1 and 10. */
  lemma ExampleSeedsLine()
    ensures KindOf("seeds: 1 10") == Seeds(Some([1, 10]))
  {
    ExampleSeedsHalves();
    ExampleSeedsSplit();
    ExampleSeedsParse();
  }

  lemma ExampleSeedsHalves()
    ensures SplitOnce("seeds: 1 10", ": ") == Some(("seeds", "1 10"))
  {
    ExampleSeedsWritten();
    SplitOnceAt("seeds", ": ", "1 10", 0);
  }

  lemma ExampleSeedsWritten()
    ensures "seeds: 1 10" == "seeds" + ": " + "1 10"
  {
  }

  lemma ExampleSeedsSplit()
    ensures Split("1 10", " ") == ["1", "10"]
  {
    assert Join(["1", "10"], " ") == "1 10";
    SplitJoin(["1", "10"], " ");
  }

  lemma ExampleSeedsParse()
    ensures ParseNats(["1", "10"]) == Some([1, 10])
  {
    var words := ["1", "10"];
    assert ParseNat(words[0]) == Some(1) && ParseNat(words[1]) == Some(10);
    var r := ParseNats(words);
    assert r.Some? && |r.value| == 2 && r.value[0] == 1 && r.value[1] == 10;
    assert r.value == [1, 10];
  }

  /** "seed-to-location map:" is a header. */
  lemma ExampleHeaderLine()
    ensures KindOf("seed-to-location map:") == Header
  {
    var line := "seed-to-location map:";
    assert line[4] != "seeds: "[4];
    assert line[|line| - 5..] == " map:";
  }

  /** "10 1 1" is a mapping line for the map from 1..2 to 10..11. */
  lemma ExampleMapLine()
    ensures KindOf("10 1 1") == Mapping(Some(MapOf(10, 1, 1)))
  {
    ExampleMapSplit();
    ExampleMapNumbers();
    ExampleMapNotHeader();
  }

  lemma ExampleMapNumbers()
    ensures ParseNat("10") == Some(10) && ParseNat("1") == Some(1)
  {
    assert "10"[..1] == "1" && "1"[..0] == "";
    assert DigitsValue("1") == 1;
    assert DigitsValue("10") == 10;
  }

  lemma ExampleMapNotHeader()
    ensures !StartsWith("10 1 1", "seeds: ") && !EndsWith("10 1 1", " map:") && |"10 1 1"| > 0
  {
    assert "10 1 1"[1] != " map:"[0];
  }

  lemma ExampleMapSplit()
    ensures Split("10 1 1", " ") == ["10", "1", "1"]
  {
    assert Join(["10", "1", "1"], " ") == "10 1 1";
    SplitJoin(["10", "1", "1"], " ");
  }
}
