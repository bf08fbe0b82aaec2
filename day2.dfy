/** The cube game: each game is a list of draws of red, green and blue cubes.
    A game is possible with 12 red, 13 green and 14 blue cubes when none of
    its draws shows more; the power of a game is the product of the fewest
    cubes of each colour it needs. */
module Day2 {
  import opened Common

  /** One draw: how many cubes of each colour were shown.  Counts are
      `i32` in the source, and a count may be written with a sign. */
  datatype Match = Match(red: int, green: int, blue: int)

  datatype Game = Game(id: int, matches: seq<Match>)

  const Zero := Match(0, 0, 0)

  /** `Match::power`. */
  function Power(m: Match): int {
    m.red * m.green * m.blue
  }

  /** The component-wise maximum of two draws. */
  function Max(a: Match, b: Match): Match {
    Match(if b.red > a.red then b.red else a.red,
          if b.green > a.green then b.green else a.green,
          if b.blue > a.blue then b.blue else a.blue)
  }

  /** The fewest cubes of each colour the draws need: the maximum of every
      colour over the draws, starting from no cubes at all. */
  function MaxOf(matches: seq<Match>): Match {
    if matches == [] then Zero else Max(MaxOf(matches[..|matches| - 1]), matches[|matches| - 1])
  }

  /** Each colour of `MaxOf` is at least zero and at least that colour in
      every draw, and it is zero or shown by some draw. */
  lemma {:induction false} MaxOfIsMax(matches: seq<Match>)
    ensures var m := MaxOf(matches);
      m.red >= 0 && m.green >= 0 && m.blue >= 0 &&
      (forall i | 0 <= i < |matches| :: matches[i].red <= m.red && matches[i].green <= m.green && matches[i].blue <= m.blue) &&
      (m.red == 0 || exists i | 0 <= i < |matches| :: matches[i].red == m.red) &&
      (m.green == 0 || exists i | 0 <= i < |matches| :: matches[i].green == m.green) &&
      (m.blue == 0 || exists i | 0 <= i < |matches| :: matches[i].blue == m.blue)
  {
    if matches != [] {
      var init := matches[..|matches| - 1];
      MaxOfIsMax(init);
      assert forall i | 0 <= i < |init| :: init[i] == matches[i];
    }
  }

  /** `Game::max_stones`: a loop keeping the largest count of each colour. */
  method MaxStones(game: Game) returns (m: Match)
    ensures m == MaxOf(game.matches)
  {
    var red, green, blue := 0, 0, 0;
    for i := 0 to |game.matches|
      invariant Match(red, green, blue) == MaxOf(game.matches[..i])
    {
      assert game.matches[..i + 1][..i] == game.matches[..i];
      var d := game.matches[i];
      red := if d.red > red then d.red else red;
      green := if d.green > green then d.green else green;
      blue := if d.blue > blue then d.blue else blue;
    }
    assert game.matches[..|game.matches|] == game.matches;
    m := Match(red, green, blue);
  }

  /** `Game::is_valid`: the game needs at most 12 red, 13 green and 14 blue. */
  predicate IsValid(game: Game) {
    var stones := MaxOf(game.matches);
    stones.red <= 12 && stones.green <= 13 && stones.blue <= 14
  }

  /** A game is possible exactly when every one of its draws fits the bag. */
  lemma IsValidIff(game: Game)
    ensures IsValid(game) <==>
      forall i | 0 <= i < |game.matches| ::
        game.matches[i].red <= 12 && game.matches[i].green <= 13 && game.matches[i].blue <= 14
  {
    MaxOfIsMax(game.matches);
  }

  /** The power of a game is never negative, and it is zero when some
      colour never appears with a positive count. */
  lemma PowerOfMax(matches: seq<Match>)
    ensures Power(MaxOf(matches)) >= 0
    ensures (forall i | 0 <= i < |matches| :: matches[i].red <= 0) ==> Power(MaxOf(matches)) == 0
    ensures (forall i | 0 <= i < |matches| :: matches[i].green <= 0) ==> Power(MaxOf(matches)) == 0
    ensures (forall i | 0 <= i < |matches| :: matches[i].blue <= 0) ==> Power(MaxOf(matches)) == 0
  {
    MaxOfIsMax(matches);
    var m := MaxOf(matches);
    assert m.red * m.green >= 0;
  }

  // ---------------------------------------------------------------------
  // Parsing

  function Add(a: Match, b: Match): Match {
    Match(a.red + b.red, a.green + b.green, a.blue + b.blue)
  }

  /** One pull "<count> <colour>" added to the running counts; a pull
      without a space, a count that is not an integer or a colour other than
      red, green and blue aborts. */
  function Pull(m: Match, pull: string): Option<Match> {
    match SplitOnce(pull, " ")
    case None => None
    case Some((num, colour)) =>
      match ParseInt(num)
      case None => None
      case Some(n) =>
        if colour == "red" then Some(m.(red := m.red + n))
        else if colour == "green" then Some(m.(green := m.green + n))
        else if colour == "blue" then Some(m.(blue := m.blue + n))
        else None
  }

  /** The counts of one draw: its pulls added up from zero. */
  function Tally(pulls: seq<string>): Option<Match> {
    if pulls == [] then Some(Zero) else Next(Tally(pulls[..|pulls| - 1]), pulls[|pulls| - 1])
  }

  /** One more pull after the counts so far, unless the draw has aborted. */
  function Next(m: Option<Match>, pull: string): Option<Match> {
    match m
    case None => None
    case Some(m) => Pull(m, pull)
  }

  /** A pull adds the same amount whatever the counts before it. */
  lemma PullShift(m: Match, pull: string)
    ensures Pull(m, pull).Some? <==> Pull(Zero, pull).Some?
    ensures Pull(m, pull).Some? ==> Pull(m, pull).value == Add(m, Pull(Zero, pull).value)
  {
  }

  /** If `ab` is the sum of `a` and `b`, it stays so after one more pull
      added to both `ab` and `b`. */
  lemma NextAdd(a: Option<Match>, b: Option<Match>, ab: Option<Match>, pull: string)
    requires ab.Some? <==> a.Some? && b.Some?
    requires ab.Some? ==> ab.value == Add(a.value, b.value)
    ensures Next(ab, pull).Some? <==> a.Some? && Next(b, pull).Some?
    ensures Next(ab, pull).Some? ==> Next(ab, pull).value == Add(a.value, Next(b, pull).value)
  {
    if ab.Some? {
      PullShift(ab.value, pull);
      PullShift(b.value, pull);
    } else if b.Some? {
      PullShift(b.value, pull);
    }
  }

  /** The pulls of a draw add up independently of how they are grouped: the
      tally of two lists of pulls is the sum of their tallies. */
  lemma {:induction false} TallyConcat(a: seq<string>, b: seq<string>)
    ensures Tally(a + b).Some? <==> Tally(a).Some? && Tally(b).Some?
    ensures Tally(a + b).Some? ==> Tally(a + b).value == Add(Tally(a).value, Tally(b).value)
  {
    if b == [] {
      assert a + b == a;
    } else {
      var init, last := b[..|b| - 1], b[|b| - 1];
      assert (a + b)[..|a + b| - 1] == a + init;
      assert (a + b)[|a + b| - 1] == last;
      TallyConcat(a, init);
      NextAdd(Tally(a), Tally(init), Tally(a + init), last);
    }
  }

  /** The counts of the draw written in one segment. */
  function Draw(segment: string): Option<Match> {
    Tally(Split(segment, ", "))
  }

  /** The draws of a game, one per segment between "; ". */
  function MatchesOf(segments: seq<string>): Option<seq<Match>> {
    AllSome(seq(|segments|, k requires 0 <= k < |segments| => Draw(segments[k])))
  }

  /** `parse_line`: "Game <id>: <draw>; <draw>; ..." where the id is read
      from the sixth character of the part before ": " on. */
  function GameOf(line: string): Option<Game> {
    match SplitOnce(line, ": ")
    case None => None
    case Some((left, right)) =>
      if |left| < 5 then None
      else
        match ParseInt(left[5..])
        case None => None
        case Some(id) =>
          match MatchesOf(Split(right, "; "))
          case None => None
          case Some(ms) => Some(Game(id, ms))
  }

  /** The inner loop of `parse_line`: the pulls of one draw added to the
      count of the colour each names. */
  method ParseDraw(segment: string) returns (m: Option<Match>)
    ensures m == Draw(segment)
  {
    var pulls := Split(segment, ", ");
    var counts := Zero;
    assert pulls[..0] == [];
    for j := 0 to |pulls|
      invariant Tally(pulls[..j]) == Some(counts)
    {
      assert pulls[..j + 1][..j] == pulls[..j];
      var next := AddPull(counts, pulls[j]);
      if next.None? {
        TallyStops(pulls, j);
        return None;
      }
      counts := next.value;
    }
    assert pulls[..|pulls|] == pulls;
    m := Some(counts);
  }

  /** The body of that loop: one pull split at its space, its count parsed
      and added to the colour it names. */
  method AddPull(counts: Match, pull: string) returns (r: Option<Match>)
    ensures r == Pull(counts, pull)
  {
    var halves := SplitOnce(pull, " ");
    if halves.None? {
      return None;
    }
    var (num, colour) := halves.value;
    var n := ParseInt(num);
    if n.None? {
      return None;
    }
    var red, green, blue := counts.red, counts.green, counts.blue;
    if colour == "red" {
      red := red + n.value;
    } else if colour == "green" {
      green := green + n.value;
    } else if colour == "blue" {
      blue := blue + n.value;
    } else {
      return None;
    }
    r := Some(Match(red, green, blue));
  }

  /** A pull that aborts aborts the whole draw. */
  lemma TallyStops(pulls: seq<string>, j: nat)
    requires j < |pulls| && Tally(pulls[..j + 1]).None?
    ensures Tally(pulls).None?
  {
    assert pulls == pulls[..j + 1] + pulls[j + 1..];
    TallyConcat(pulls[..j + 1], pulls[j + 1..]);
  }

  /** `parse_line` as the source writes it: a loop over the draws pushing
      the counts of each. */
  method ParseLine(line: string) returns (game: Option<Game>)
    ensures game == GameOf(line)
  {
    var halves := SplitOnce(line, ": ");
    if halves.None? {
      return None;
    }
    var (left, right) := halves.value;
    if |left| < 5 {
      return None;
    }
    var id := ParseInt(left[5..]);
    if id.None? {
      return None;
    }
    var segments := Split(right, "; ");
    ghost var draws := seq(|segments|, k requires 0 <= k < |segments| => Draw(segments[k]));
    var matches := ParseDraws(segments, draws);
    if matches.None? {
      return None;
    }
    game := Some(Game(id.value, matches.value));
  }

  /** The loop of `parse_line` over the draws, pushing the counts of each. */
  method ParseDraws(segments: seq<string>, ghost draws: seq<Option<Match>>) returns (matches: Option<seq<Match>>)
    requires |draws| == |segments|
    requires forall k {:trigger Draw(segments[k])} | 0 <= k < |segments| :: draws[k] == Draw(segments[k])
    ensures matches == AllSome(draws)
  {
    var done: seq<Match> := [];
    for i := 0 to |segments|
      invariant |done| == i && forall k | 0 <= k < i :: draws[k] == Some(done[k])
    {
      var m := ParseDraw(segments[i]);
      if m.None? {
        assert draws[i].None?;
        return None;
      }
      done := done + [m.value];
    }
    AllSomeIs(draws, done);
    matches := Some(done);
  }

  // ---------------------------------------------------------------------
  // Answers

  /** Part one counts the id of every possible game; part two the power of
      every game's fewest cubes. */
  function Score(game: Game): (int, int) {
    (if IsValid(game) then game.id else 0, Power(MaxOf(game.matches)))
  }

  function Totals(games: seq<Game>): (int, int) {
    if games == [] then (0, 0)
    else
      var t, s := Totals(games[..|games| - 1]), Score(games[|games| - 1]);
      (t.0 + s.0, t.1 + s.1)
  }

  /** The totals of two lists of games add up. */
  lemma {:induction false} TotalsConcat(a: seq<Game>, b: seq<Game>)
    ensures Totals(a + b) == (Totals(a).0 + Totals(b).0, Totals(a).1 + Totals(b).1)
  {
    if b == [] {
      assert a + b == a;
    } else {
      assert (a + b)[..|a + b| - 1] == a + b[..|b| - 1];
      TotalsConcat(a, b[..|b| - 1]);
    }
  }

  /** Part two is never negative, and part one only counts possible games. */
  lemma {:induction false} TotalsBounds(games: seq<Game>)
    ensures Totals(games).1 >= 0
    ensures (forall k | 0 <= k < |games| :: !IsValid(games[k])) ==> Totals(games).0 == 0
  {
    if games != [] {
      var init := games[..|games| - 1];
      TotalsBounds(init);
      PowerOfMax(games[|games| - 1].matches);
      assert forall k | 0 <= k < |init| :: init[k] == games[k];
    }
  }

  function GamesOf(lines: seq<string>): Option<seq<Game>> {
    AllSome(seq(|lines|, k requires 0 <= k < |lines| => GameOf(lines[k])))
  }

  /** `exec`: both totals over the games of the lines; a line that does not
      parse aborts. */
  function Exec(source: string): Option<(int, int)> {
    match GamesOf(Split(source, "\n"))
    case None => None
    case Some(games) => Some(Totals(games))
  }

  /** The totals of a game list are its first game's score plus the rest. */
  lemma ExecOneGame(g: Game)
    ensures Totals([g]) == Score(g)
  {
    assert [g][..0] == [];
  }

  // ---------------------------------------------------------------------
  // Examples

  /** "Game 1: 3 blue, 4 red; 1 red, 2 green, 6 blue; 2 green" parses to a
      game that is possible and whose power is 4 * 2 * 6. */
  lemma ExampleGame()
    ensures var g := Game(1, [Match(4, 0, 3), Match(1, 2, 6), Match(0, 2, 0)]);
      GameOf("Game 1: " + "3 blue, 4 red" + "; " + "1 red, 2 green, 6 blue" + "; " + "2 green") == Some(g)
      && MaxOf(g.matches) == Match(4, 2, 6) && IsValid(g) && Score(g) == (1, 48)
  {
    ExampleParseLine();
    var ms := [Match(4, 0, 3), Match(1, 2, 6), Match(0, 2, 0)];
    assert ms[..1] == [Match(4, 0, 3)] && ms[..1][..0] == [];
    assert MaxOf(ms[..1]) == Match(4, 0, 3);
    assert ms[..2][..1] == ms[..1];
    assert MaxOf(ms[..2]) == Match(4, 2, 6);
    assert ms[..3][..2] == ms[..2] && ms[..3] == ms;
  }

  /** `test_parse_line`: the line "Game 1: 3 blue, 4 red; 1 red, 2 green,
      6 blue; 2 green" (written here as its header and its draws joined by
      "; ") parses to game 1 with the draws (4, 0, 3), (1, 2, 6) and
      (0, 2, 0). */
  lemma ExampleParseLine()
    ensures GameOf("Game 1: " + "3 blue, 4 red" + "; " + "1 red, 2 green, 6 blue" + "; " + "2 green")
      == Some(Game(1, [Match(4, 0, 3), Match(1, 2, 6), Match(0, 2, 0)]))
  {
    ExampleLineHalves();
    ExampleGameId();
    ExampleDraws();
    GameOfParts("Game 1: " + "3 blue, 4 red" + "; " + "1 red, 2 green, 6 blue" + "; " + "2 green",
      "Game 1", "3 blue, 4 red" + "; " + "1 red, 2 green, 6 blue" + "; " + "2 green",
      1, [Match(4, 0, 3), Match(1, 2, 6), Match(0, 2, 0)]);
  }

  /** A line whose header and draws parse makes the game they give. */
  lemma GameOfParts(line: string, head: string, rest: string, id: int, ms: seq<Match>)
    requires SplitOnce(line, ": ") == Some((head, rest)) && |head| >= 5
    requires ParseInt(head[5..]) == Some(id) && MatchesOf(Split(rest, "; ")) == Some(ms)
    ensures GameOf(line) == Some(Game(id, ms))
  {
  }

  /** The test line's header "Game 1" and its draws, either side of ": ". */
  lemma ExampleLineHalves()
    ensures SplitOnce("Game 1: " + "3 blue, 4 red" + "; " + "1 red, 2 green, 6 blue" + "; " + "2 green", ": ")
      == Some(("Game 1", "3 blue, 4 red" + "; " + "1 red, 2 green, 6 blue" + "; " + "2 green"))
  {
    Regroup("Game 1: ", "3 blue, 4 red", "1 red, 2 green, 6 blue", "2 green");
    assert "Game 1: " == "Game 1" + ": ";
    SplitOnceAt("Game 1", ": ", "3 blue, 4 red" + "; " + "1 red, 2 green, 6 blue" + "; " + "2 green", 0);
  }

  /** Three strings after a header regroup as the header and the rest. */
  lemma Regroup(head: string, a: string, b: string, c: string)
    ensures head + a + "; " + b + "; " + c == head + (a + "; " + b + "; " + c)
  {
  }

  /** The id of the header "Game 1" is read from its sixth character. */
  lemma ExampleGameId()
    ensures ParseInt("Game 1"[5..]) == Some(1)
  {
    assert "Game 1"[5..] == "1";
  }

  /** The draws of the test line are (4, 0, 3), (1, 2, 6) and (0, 2, 0). */
  lemma ExampleDraws()
    ensures MatchesOf(Split("3 blue, 4 red" + "; " + "1 red, 2 green, 6 blue" + "; " + "2 green", "; "))
      == Some([Match(4, 0, 3), Match(1, 2, 6), Match(0, 2, 0)])
  {
    SegmentsOfThree("3 blue, 4 red", "1 red, 2 green, 6 blue", "2 green");
    ExampleDrawOne();
    ExampleDrawTwo();
    ExampleDrawThree();
    MatchesOfThree("3 blue, 4 red", "1 red, 2 green, 6 blue", "2 green", Match(4, 0, 3), Match(1, 2, 6), Match(0, 2, 0));
  }

  /** Three segments without semicolons, joined by "; ", split back into
      those segments. */
  lemma SegmentsOfThree(a: string, b: string, c: string)
    requires forall j | 0 <= j < |a| :: a[j] != ';'
    requires forall j | 0 <= j < |b| :: b[j] != ';'
    requires forall j | 0 <= j < |c| :: c[j] != ';'
    ensures Split(a + "; " + b + "; " + c, "; ") == [a, b, c]
  {
    assert [a, b, c][1..] == [b, c] && [b, c][1..] == [c];
    assert Join([b, c], "; ") == b + "; " + c;
    assert Join([a, b, c], "; ") == a + "; " + b + "; " + c;
    SplitJoin([a, b, c], "; ");
  }

  /** Segments whose draws all parse give those draws, in order. */
  lemma MatchesOfDraws(segments: seq<string>, ms: seq<Match>)
    requires |segments| == |ms| && forall k | 0 <= k < |ms| :: Draw(segments[k]) == Some(ms[k])
    ensures MatchesOf(segments) == Some(ms)
  {
    AllSomeIs(seq(|segments|, k requires 0 <= k < |segments| => Draw(segments[k])), ms);
  }

  /** `MatchesOfDraws` for three segments. */
  lemma MatchesOfThree(a: string, b: string, c: string, x: Match, y: Match, z: Match)
    requires Draw(a) == Some(x) && Draw(b) == Some(y) && Draw(c) == Some(z)
    ensures MatchesOf([a, b, c]) == Some([x, y, z])
  {
    forall k | 0 <= k < 3
      ensures Draw([a, b, c][k]) == Some([x, y, z][k])
    {
      if k == 0 {
      } else if k == 1 {
      } else {
      }
    }
    MatchesOfDraws([a, b, c], [x, y, z]);
  }

  /** A draw of one pull without commas is that pull added to zero. */
  lemma DrawOfOne(a: string)
    requires forall j | 0 <= j < |a| :: a[j] != ','
    ensures Draw(a) == Next(Some(Zero), a)
  {
    SplitNoFirst(a, ", ");
    assert [a][..0] == [];
    assert Tally([a]) == Next(Tally([]), a);
  }

  /** A draw of two pulls without commas adds them up in order. */
  lemma DrawOfTwo(a: string, b: string)
    requires forall j | 0 <= j < |a| :: a[j] != ','
    requires forall j | 0 <= j < |b| :: b[j] != ','
    ensures Draw(a + ", " + b) == Next(Next(Some(Zero), a), b)
  {
    assert Join([a, b], ", ") == a + ", " + b;
    SplitJoin([a, b], ", ");
    TallyTwo(a, b);
  }

  /** A draw of three pulls without commas adds them up in order. */
  lemma DrawOfThree(a: string, b: string, c: string)
    requires forall j | 0 <= j < |a| :: a[j] != ','
    requires forall j | 0 <= j < |b| :: b[j] != ','
    requires forall j | 0 <= j < |c| :: c[j] != ','
    ensures Draw(a + ", " + b + ", " + c) == Next(Next(Next(Some(Zero), a), b), c)
  {
    assert [a, b, c][1..] == [b, c] && [b, c][1..] == [c];
    assert Join([b, c], ", ") == b + ", " + c;
    assert Join([a, b, c], ", ") == a + ", " + b + ", " + c;
    SplitJoin([a, b, c], ", ");
    TallyThree(a, b, c);
  }

  /** Two pulls are tallied one after the other from zero. */
  lemma TallyTwo(a: string, b: string)
    ensures Tally([a, b]) == Next(Next(Some(Zero), a), b)
  {
    assert [a, b][..1] == [a] && [a][..0] == [];
    assert Tally([a]) == Next(Some(Zero), a);
  }

  /** Three pulls are tallied one after the other from zero. */
  lemma TallyThree(a: string, b: string, c: string)
    ensures Tally([a, b, c]) == Next(Next(Next(Some(Zero), a), b), c)
  {
    assert [a, b, c][..2] == [a, b];
    TallyTwo(a, b);
  }

  /** "3 blue, 4 red" counts 4 red and 3 blue. */
  lemma ExampleDrawOne()
    ensures Draw("3 blue, 4 red") == Some(Match(4, 0, 3))
  {
    ExampleDrawOnePulls();
    ExamplePullsOne(Zero);
    ExamplePullsOne(Match(0, 0, 3));
  }

  /** The first draw is its two pulls, tallied in order. */
  lemma ExampleDrawOnePulls()
    ensures Draw("3 blue, 4 red") == Next(Next(Some(Zero), "3 blue"), "4 red")
  {
    assert "3 blue, 4 red" == "3 blue" + ", " + "4 red";
    DrawOfTwo("3 blue", "4 red");
  }

  /** "1 red, 2 green, 6 blue" counts 1 red, 2 green and 6 blue. */
  lemma ExampleDrawTwo()
    ensures Draw("1 red, 2 green, 6 blue") == Some(Match(1, 2, 6))
  {
    ExampleDrawTwoPulls();
    ExamplePullsTwo(Zero);
    ExamplePullsTwo(Match(1, 0, 0));
    ExamplePullsTwo(Match(1, 2, 0));
  }

  /** The second draw is its three pulls, tallied in order. */
  lemma ExampleDrawTwoPulls()
    ensures Draw("1 red, 2 green, 6 blue") == Next(Next(Next(Some(Zero), "1 red"), "2 green"), "6 blue")
  {
    assert "1 red, 2 green, 6 blue" == "1 red" + ", " + "2 green" + ", " + "6 blue";
    DrawOfThree("1 red", "2 green", "6 blue");
  }

  /** "2 green" counts 2 green. */
  lemma ExampleDrawThree()
    ensures Draw("2 green") == Some(Match(0, 2, 0))
  {
    DrawOfOne("2 green");
    ExamplePullsTwo(Zero);
  }

  /** The pulls of the first draw, added to any counts. */
  lemma ExamplePullsOne(m: Match)
    ensures Pull(m, "3 blue") == Some(m.(blue := m.blue + 3))
    ensures Pull(m, "4 red") == Some(m.(red := m.red + 4))
  {
    assert "3 blue" == "3" + " " + "blue" && "4 red" == "4" + " " + "red";
    SplitOnceAt("3", " ", "blue", 0);
    SplitOnceAt("4", " ", "red", 0);
  }

  /** The pulls of the second and third draws, added to any counts. */
  lemma ExamplePullsTwo(m: Match)
    ensures Pull(m, "1 red") == Some(m.(red := m.red + 1))
    ensures Pull(m, "2 green") == Some(m.(green := m.green + 2))
    ensures Pull(m, "6 blue") == Some(m.(blue := m.blue + 6))
  {
    assert "1 red" == "1" + " " + "red" && "2 green" == "2" + " " + "green" && "6 blue" == "6" + " " + "blue";
    SplitOnceAt("1", " ", "red", 0);
    SplitOnceAt("2", " ", "green", 0);
    SplitOnceAt("6", " ", "blue", 0);
  }

  /** A draw with too many red cubes makes the game impossible. */
  lemma ExampleImpossible()
    ensures !IsValid(Game(3, [Match(20, 8, 6), Match(4, 13, 5), Match(1, 5, 0)]))
  {
    var g := Game(3, [Match(20, 8, 6), Match(4, 13, 5), Match(1, 5, 0)]);
    IsValidIff(g);
    assert g.matches[0].red > 12;
  }

  /** An unknown colour aborts the line: "Game 1: 3 purple". */
  lemma ExampleBadColour()
    ensures GameOf("Game 1: 3 purple") == None
  {
    var line := "Game 1: 3 purple";
    ExampleHeader();
    ExampleBadDraw();
    var halves := SplitOnce(line, ": ");
    assert halves == Some(("Game 1", "3 purple"));
  }

  lemma ExampleHeader()
    ensures SplitOnce("Game 1: 3 purple", ": ") == Some(("Game 1", "3 purple"))
  {
    var line := "Game 1: 3 purple";
    FindAtFirstChar(line, ": ", 6);
    SplitFirst(line, ": ", 6);
    assert line[..6] == "Game 1" && line[8..] == "3 purple";
  }

  lemma ExampleBadDraw()
    ensures MatchesOf(Split("3 purple", "; ")) == None
  {
    var seg := "3 purple";
    NoFirstChar(seg, "; ");
    SplitNone(seg, "; ");
    ExamplePurple();
    assert Split(seg, "; ")[0] == seg;
  }

  /** The draw "3 purple" is its one pull, which names no colour. */
  lemma ExamplePurple()
    ensures Draw("3 purple").None?
  {
    var seg := "3 purple";
    NoFirstChar(seg, ", ");
    SplitNone(seg, ", ");
    ExamplePurplePull();
    var pulls: seq<string> := [seg];
    assert pulls[..0] == [];
  }

  lemma ExamplePurplePull()
    ensures Pull(Zero, "3 purple").None?
  {
    ExamplePurpleSplit();
    assert |"purple"| != |"red"| && |"purple"| != |"green"| && |"purple"| != |"blue"|;
  }

  lemma ExamplePurpleSplit()
    ensures SplitOnce("3 purple", " ") == Some(("3", "purple"))
  {
    var seg := "3 purple";
    assert seg == "3" + " " + "purple";
    FindAtFirstChar(seg, " ", 1);
    SplitFirst(seg, " ", 1);
  }
}
