/** Scratchcards: each card lists the numbers it has and the winning
    numbers; its matches are the numbers on both lists.  Part one scores a
    card 2^(matches-1); in part two a card with m matches wins one copy of
    each of the next m cards for every copy of it held, and the answer is
    the number of cards held in the end. */
module Day4 {
  import opened Common

  datatype Card = Card(id: nat, matches: nat)

  // ---------------------------------------------------------------------
  // Numbers on a card

  /** The number a run of digits spells. */
  function Number(digits: string): nat {
    match ParseNat(digits)
    case Some(n) => n
    case None => 0
  }

  /** The numbers the runs spell, as a set. */
  function RunValues(runs: seq<Run>): set<nat> {
    set k | 0 <= k < |runs| :: Number(runs[k].digits)
  }

  /** What `extract_numbers` returns: the numbers of the maximal runs of
      digits of the trimmed text. */
  function NumbersOf(s: string): set<nat> {
    RunValues(Runs(Trim(s)))
  }

  lemma RunValuesSnoc(runs: seq<Run>, r: Run)
    ensures RunValues(runs + [r]) == RunValues(runs) + {Number(r.digits)}
  {
    var all := runs + [r];
    assert all[|runs|] == r;
    assert forall k | 0 <= k < |runs| :: all[k] == runs[k];
  }

  /** Inside a number: the digits read so far are the last run of the text
      scanned, and the set holds the numbers of the runs before it. */
  ghost predicate InNumber(p: string, current: string, result: set<nat>) {
    var runs := Runs(p);
    |p| > 0 && IsDigit(p[|p| - 1]) && |runs| > 0 &&
    runs[|runs| - 1].digits == current && result == RunValues(runs[..|runs| - 1])
  }

  /** `extract_numbers`: one scan over the trimmed text, collecting digits
      and inserting the number they spell at every other character and at
      the end. */
  method ExtractNumbers(s: string) returns (result: set<nat>)
    ensures result == NumbersOf(s)
  {
    var t := Trim(s);
    result := {};
    var current := "";
    for i := 0 to |t|
      invariant Scanned(t[..i], current, result)
    {
      PrefixSnoc(t, i);
      current, result := ScanChar(t[..i], t[i], current, result);
    }
    assert t[..|t|] == t;
    if current != [] {
      EndNumber(t, current, result);
      result := result + {Number(current)};
    }
  }

  /** The state of the scan after the text `p`: between numbers the set
      holds every number so far; inside one, as `InNumber` says. */
  ghost predicate Scanned(p: string, current: string, result: set<nat>) {
    && (current == [] ==> (|p| == 0 || !IsDigit(p[|p| - 1])) && result == RunValues(Runs(p)))
    && (current != [] ==> InNumber(p, current, result))
  }

  /** One character of the scan: a digit extends the current number, any
      other character inserts it and starts afresh. */
  method ScanChar(p: string, c: char, current: string, result: set<nat>) returns (current': string, result': set<nat>)
    requires Scanned(p, current, result)
    ensures Scanned(p + [c], current', result')
  {
    assert (p + [c])[..|p|] == p;
    current', result' := current, result;
    if IsDigit(c) {
      if current == [] {
        StartNumber(p, c, result);
        current' := [c];
      } else {
        ExtendNumber(p, c, current, result);
        current' := current + [c];
      }
    } else {
      assert Runs(p + [c]) == Runs(p);
      if current != [] {
        EndNumber(p, current, result);
        result' := result + {Number(current)};
        current' := "";
      }
    }
  }

  lemma StartNumber(p: string, c: char, result: set<nat>)
    requires IsDigit(c) && (|p| == 0 || !IsDigit(p[|p| - 1])) && result == RunValues(Runs(p))
    ensures InNumber(p + [c], [c], result)
  {
    var s := p + [c];
    assert s[..|s| - 1] == p;
    assert Runs(s) == Runs(p) + [Run(|p|, [c])];
    assert Runs(s)[..|Runs(s)| - 1] == Runs(p);
  }

  lemma ExtendNumber(p: string, c: char, current: string, result: set<nat>)
    requires IsDigit(c) && InNumber(p, current, result)
    ensures InNumber(p + [c], current + [c], result)
  {
    var s := p + [c];
    assert s[..|s| - 1] == p;
    var prev := Runs(p);
    var last := prev[|prev| - 1];
    assert Runs(s) == prev[..|prev| - 1] + [Run(last.start, last.digits + [c])];
    assert Runs(s)[..|Runs(s)| - 1] == prev[..|prev| - 1];
  }

  lemma EndNumber(p: string, current: string, result: set<nat>)
    requires InNumber(p, current, result)
    ensures result + {Number(current)} == RunValues(Runs(p))
  {
    var runs := Runs(p);
    assert runs == runs[..|runs| - 1] + [runs[|runs| - 1]];
    RunValuesSnoc(runs[..|runs| - 1], runs[|runs| - 1]);
  }

  // ---------------------------------------------------------------------
  // Whitespace does not matter

  /** `a` is `b` with every run moved `d` columns to the right. */
  predicate Shifted(a: seq<Run>, b: seq<Run>, d: nat) {
    |a| == |b| && forall k | 0 <= k < |a| :: a[k] == Run(b[k].start + d, b[k].digits)
  }

  /** Characters that are not digits at the start only move the runs. */
  lemma {:induction false} RunsPrependNoDigits(p: string, q: string)
    requires NoDigits(p)
    ensures Shifted(Runs(p + q), Runs(q), |p|)
    decreases |q|
  {
    if q == [] {
      assert p + q == [] + p;
      RunsAppendNoDigits([], p);
    } else {
      var q', c := q[..|q| - 1], q[|q| - 1];
      assert p + q == (p + q') + [c];
      assert q == q' + [c];
      RunsPrependNoDigits(p, q');
      PrependStep(p, q', c);
    }
  }

  lemma PrependStep(p: string, q: string, c: char)
    requires NoDigits(p) && Shifted(Runs(p + q), Runs(q), |p|)
    ensures Shifted(Runs((p + q) + [c]), Runs(q + [c]), |p|)
  {
    if !IsDigit(c) {
      RunsSnoc(p + q, c);
      RunsSnoc(q, c);
    } else if |q| > 0 && IsDigit(q[|q| - 1]) && |Runs(q)| > 0 {
      PrependExtends(p, q, c);
    } else {
      PrependStarts(p, q, c);
    }
  }

  /** A digit after a digit extends the last run on both sides. */
  lemma PrependExtends(p: string, q: string, c: char)
    requires NoDigits(p) && Shifted(Runs(p + q), Runs(q), |p|)
    requires IsDigit(c) && |q| > 0 && IsDigit(q[|q| - 1]) && |Runs(q)| > 0
    ensures Shifted(Runs((p + q) + [c]), Runs(q + [c]), |p|)
  {
    RunsSnoc(p + q, c);
    RunsSnoc(q, c);
    assert (p + q)[|p + q| - 1] == q[|q| - 1];
    ShiftedExtend(Runs(p + q), Runs(q), |p|, c);
  }

  /** A digit after anything else starts a new run on both sides. */
  lemma PrependStarts(p: string, q: string, c: char)
    requires NoDigits(p) && Shifted(Runs(p + q), Runs(q), |p|)
    requires IsDigit(c) && !(|q| > 0 && IsDigit(q[|q| - 1]) && |Runs(q)| > 0)
    ensures Shifted(Runs((p + q) + [c]), Runs(q + [c]), |p|)
  {
    assert Runs((p + q) + [c]) == Runs(p + q) + [Run(|p + q|, [c])] by {
      RunsSnoc(p + q, c);
      if |q| > 0 {
        assert (p + q)[|p + q| - 1] == q[|q| - 1];
      } else {
        assert p + q == p;
      }
    }
    assert Runs(q + [c]) == Runs(q) + [Run(|q|, [c])] by {
      RunsSnoc(q, c);
    }
    ShiftedSnoc(Runs(p + q), Runs(q), |p|, Run(|p + q|, [c]), Run(|q|, [c]));
  }

  lemma ShiftedSnoc(a: seq<Run>, b: seq<Run>, d: nat, x: Run, y: Run)
    requires Shifted(a, b, d) && x == Run(y.start + d, y.digits)
    ensures Shifted(a + [x], b + [y], d)
  {
  }

  lemma ShiftedExtend(a: seq<Run>, b: seq<Run>, d: nat, c: char)
    requires Shifted(a, b, d) && |a| > 0
    ensures Shifted(a[..|a| - 1] + [Run(a[|a| - 1].start, a[|a| - 1].digits + [c])],
                    b[..|b| - 1] + [Run(b[|b| - 1].start, b[|b| - 1].digits + [c])], d)
  {
  }

  lemma ShiftedValues(a: seq<Run>, b: seq<Run>, d: nat)
    requires Shifted(a, b, d)
    ensures RunValues(a) == RunValues(b)
  {
    forall n | n in RunValues(a) ensures n in RunValues(b) {
      var k :| 0 <= k < |a| && Number(a[k].digits) == n;
      assert Number(b[k].digits) == n;
    }
    forall n | n in RunValues(b) ensures n in RunValues(a) {
      var k :| 0 <= k < |b| && Number(b[k].digits) == n;
      assert Number(a[k].digits) == n;
    }
  }

  /** Leading, trailing and repeated whitespace make no difference: the
      numbers are those of the maximal runs of digits of the text itself. */
  lemma NumbersOfUntrimmed(s: string)
    ensures NumbersOf(s) == RunValues(Runs(s))
  {
    var r := Trim(s);
    var a :| TrimmedAt(s, r, a);
    var w1, w2 := s[..a], s[a + |r|..];
    TrimmedParts(s, r, a);
    RunsAppendNoDigits(r, w2);
    RunsPrependNoDigits(w1, r + w2);
    ShiftedValues(Runs(s), Runs(r), |w1|);
  }

  /** The whitespace trimmed off either end holds no digit. */
  lemma TrimmedParts(s: string, r: string, a: nat)
    requires TrimmedAt(s, r, a)
    ensures s == s[..a] + (r + s[a + |r|..])
    ensures NoDigits(s[..a]) && NoDigits(s[a + |r|..])
  {
    assert s == s[..a] + s[a..a + |r|] + s[a + |r|..];
    forall i | 0 <= i < a ensures !IsDigit(s[..a][i]) {
      assert IsWhitespace(s[i]);
    }
    var w := s[a + |r|..];
    forall i | 0 <= i < |w| ensures !IsDigit(w[i]) {
      assert w[i] == s[a + |r| + i];
    }
  }

  /** A number is extracted exactly when some maximal block of digits of the
      text spells it. */
  lemma NumbersOfBlocks(s: string, n: nat)
    ensures n in NumbersOf(s) <==> exists run :: WellPlaced(s, run) && Number(run.digits) == n
  {
    NumbersOfUntrimmed(s);
    RunsMaximal(s);
    if n in NumbersOf(s) {
      RunIsBlock(s, n);
    }
    if run :| WellPlaced(s, run) && Number(run.digits) == n {
      BlockIsRun(s, n, run);
    }
  }

  lemma RunIsBlock(s: string, n: nat)
    requires MaximalRuns(s, Runs(s)) && n in RunValues(Runs(s))
    ensures exists run :: WellPlaced(s, run) && Number(run.digits) == n
  {
    var runs := Runs(s);
    var k :| 0 <= k < |runs| && Number(runs[k].digits) == n;
    assert WellPlaced(s, runs[k]);
  }

  lemma BlockIsRun(s: string, n: nat, run: Run)
    requires MaximalRuns(s, Runs(s)) && WellPlaced(s, run) && Number(run.digits) == n
    ensures n in RunValues(Runs(s))
  {
    var runs := Runs(s);
    assert run.digits != [] && IsDigit(s[run.start]) by {
      DigitsInside(s, run, run.start);
    }
    var k :| 0 <= k < |runs| && runs[k].start <= run.start < runs[k].End();
    BlocksMeet(s, run, runs[k]);
  }

  /** Two maximal blocks of digits that overlap are the same block. */
  lemma BlocksMeet(s: string, a: Run, b: Run)
    requires WellPlaced(s, a) && WellPlaced(s, b) && b.start <= a.start < b.End()
    ensures a == b
  {
    DigitsInside(s, b, a.start - 1);
    DigitsInside(s, b, a.End());
    DigitsInside(s, a, b.End());
    assert a.digits == s[a.start..a.End()] == b.digits;
  }

  /** The characters of a well placed run are digits. */
  lemma DigitsInside(s: string, run: Run, i: int)
    requires WellPlaced(s, run)
    ensures run.start <= i < run.End() ==> IsDigit(s[i])
  {
    if run.start <= i < run.End() {
      assert s[i] == run.digits[i - run.start];
    }
  }

  // ---------------------------------------------------------------------
  // Parsing and part one

  /** `parse_line`: the matches are the numbers both on the ticket (between
      ": " and " | ") and among the winning numbers (after " | "). */
  function ParseLine(id: nat, line: string): (r: Option<Card>)
    ensures r.Some? ==> r.value.id == id
  {
    match MatchCount(line)
    case None => None
    case Some(m) => Some(Card(id, m))
  }

  /** How many numbers are both on the ticket and winning, if the line has
      both separators. */
  function MatchCount(line: string): Option<nat> {
    match SplitOnce(line, ": ")
    case None => None
    case Some((_, game)) =>
      match SplitOnce(game, " | ")
      case None => None
      case Some((ticket, win)) => Some(|NumbersOf(ticket) * NumbersOf(win)|)
  }

  /** The match count of every line. */
  function MatchCounts(lines: seq<string>): seq<Option<nat>> {
    seq(|lines|, k requires 0 <= k < |lines| => MatchCount(lines[k]))
  }

  /** Cards with the given match counts, numbered from 1. */
  function Numbered(ms: seq<nat>): (cards: seq<Card>)
    ensures |cards| == |ms|
    ensures forall k | 0 <= k < |ms| :: cards[k].id == k + 1 && cards[k].matches == ms[k]
  {
    seq(|ms|, k requires 0 <= k < |ms| => Card(k + 1, ms[k]))
  }

  /** The cards of the lines, numbered from 1: `None` when some line lacks a
      separator. */
  function ParseCards(lines: seq<string>): Option<seq<Card>> {
    match AllSome(MatchCounts(lines))
    case None => None
    case Some(ms) => Some(Numbered(ms))
  }

  /** Parsing fails exactly when some line fails to parse, and otherwise the
      `k`-th card is the card `ParseLine` reads from line `k`, numbered
      `k + 1`. */
  lemma ParseCardsLines(lines: seq<string>, k: nat)
    requires k < |lines|
    ensures ParseLine(k + 1, lines[k]).None? ==> ParseCards(lines).None?
    ensures ParseCards(lines).Some? ==>
      |ParseCards(lines).value| == |lines| && ParseLine(k + 1, lines[k]) == Some(ParseCards(lines).value[k])
  {
    var xs := MatchCounts(lines);
    assert xs[k] == MatchCount(lines[k]);
  }

  function Pow2(n: nat): nat {
    if n == 0 then 1 else 2 * Pow2(n - 1)
  }

  /** `calc_score`. */
  function CalcScore(card: Card): nat {
    if card.matches > 0 then Pow2(card.matches - 1) else 0
  }

  lemma {:induction false} Pow2Positive(n: nat)
    ensures Pow2(n) >= 1
  {
    if n > 0 {
      Pow2Positive(n - 1);
    }
  }

  /** A card scores exactly when it has a match; one match scores 1 and
      every further match doubles the score. */
  lemma CalcScoreDoubles(card: Card)
    ensures CalcScore(card) > 0 <==> card.matches > 0
    ensures card.matches == 1 ==> CalcScore(card) == 1
    ensures card.matches > 1 ==> CalcScore(card) == 2 * CalcScore(card.(matches := card.matches - 1))
  {
    if card.matches > 0 {
      Pow2Positive(card.matches - 1);
    }
  }

  function SumScores(cards: seq<Card>): nat {
    if cards == [] then 0 else SumScores(cards[..|cards| - 1]) + CalcScore(cards[|cards| - 1])
  }

  /** Part one is 0 exactly when no card has a match. */
  lemma {:induction false} SumScoresZero(cards: seq<Card>)
    ensures SumScores(cards) == 0 <==> forall k | 0 <= k < |cards| :: cards[k].matches == 0
  {
    if cards != [] {
      var init := cards[..|cards| - 1];
      SumScoresZero(init);
      CalcScoreDoubles(cards[|cards| - 1]);
      assert forall k | 0 <= k < |init| :: init[k] == cards[k];
    }
  }

  // ---------------------------------------------------------------------
  // Part two: copies

  /** Card `j` (with id j + 1) wins a copy of the card with id `x`. */
  predicate Wins(cards: seq<Card>, j: nat, x: int) {
    j < |cards| && j + 1 < x <= j + 1 + cards[j].matches
  }

  /** How many copies of card `j` are held: the original and one for every
      copy of an earlier card that wins it. */
  ghost function Copies(cards: seq<Card>, j: nat): nat
    requires j < |cards|
    decreases j, 1
  {
    1 + Contrib(cards, j + 1, j)
  }

  /** The copies of id `x` won by the first `t` cards. */
  ghost function Contrib(cards: seq<Card>, x: int, t: nat): nat
    requires t <= |cards|
    decreases t, 0
  {
    if t == 0 then 0
    else Contrib(cards, x, t - 1) + (if Wins(cards, t - 1, x) then Copies(cards, t - 1) else 0)
  }

  /** The highest id held after the first `t` cards have been scored: the
      last card's, or further when a card wins copies past the end. */
  function Reach(cards: seq<Card>, t: nat): nat
    requires t <= |cards|
  {
    if t == 0 then |cards|
    else
      var r := Reach(cards, t - 1);
      var top := t + cards[t - 1].matches;
      if top > r then top else r
  }

  /** The ids held: 1 up to the reach. */
  function Ids(cards: seq<Card>, t: nat): set<nat>
    requires t <= |cards|
  {
    UpTo(Reach(cards, t))
  }

  /** The ids 1 up to `r`. */
  function UpTo(r: nat): (ids: set<nat>)
    ensures forall y: nat :: y in ids <==> 1 <= y <= r
  {
    if r == 0 then {} else UpTo(r - 1) + {r}
  }

  /** The number held of id `x` once every card has been scored. */
  ghost function Count(cards: seq<Card>, x: int): nat {
    1 + Contrib(cards, x, |cards|)
  }

  /** The total number held of the ids in `s`. */
  ghost function SumCounts(cards: seq<Card>, s: set<nat>): nat {
    if s == {} then 0
    else
      var x :| x in s;
      Count(cards, x) + SumCounts(cards, s - {x})
  }

  /** The total does not depend on the order the ids are visited in. */
  lemma SumCountsRemove(cards: seq<Card>, s: set<nat>, y: nat)
    requires y in s
    ensures SumCounts(cards, s) == Count(cards, y) + SumCounts(cards, s - {y})
    decreases |s|
  {
    var x :| x in s && SumCounts(cards, s) == Count(cards, x) + SumCounts(cards, s - {x});
    if x != y {
      SumCountsRemove(cards, s - {x}, y);
      SumCountsRemove(cards, s - {y}, x);
      assert s - {x} - {y} == s - {y} - {x};
    }
  }

  /** Cards only ever win copies: a later state holds at least as many. */
  lemma {:induction false} ContribMonotone(cards: seq<Card>, x: int, t1: nat, t2: nat)
    requires t1 <= t2 <= |cards|
    ensures Contrib(cards, x, t1) <= Contrib(cards, x, t2)
    decreases t2
  {
    if t1 < t2 {
      ContribMonotone(cards, x, t1, t2 - 1);
    }
  }

  /** Cards after id `x` win no copies of it, so its count is settled once
      the cards before it are scored. */
  lemma {:induction false} ContribSettled(cards: seq<Card>, x: int, t: nat)
    requires 1 <= x && x - 1 <= t <= |cards|
    ensures Contrib(cards, x, t) == Contrib(cards, x, x - 1)
    decreases t
  {
    if t > x - 1 {
      ContribSettled(cards, x, t - 1);
    }
  }

  /** No card before `t` wins an id beyond the reach. */
  lemma {:induction false} ContribBeyond(cards: seq<Card>, x: int, t: nat)
    requires t <= |cards| && x > Reach(cards, t)
    ensures Contrib(cards, x, t) == 0
    decreases t
  {
    if t > 0 {
      ContribBeyond(cards, x, t - 1);
    }
  }

  /** The final count of a card's id is its number of copies. */
  lemma CountIsCopies(cards: seq<Card>, j: nat)
    requires j < |cards|
    ensures Count(cards, j + 1) == Copies(cards, j)
  {
    ContribSettled(cards, j + 1, |cards|);
  }

  /** The copies of the first `t` cards, added up. */
  ghost function SumCopies(cards: seq<Card>, t: nat): nat
    requires t <= |cards|
  {
    if t == 0 then 0 else SumCopies(cards, t - 1) + Copies(cards, t - 1)
  }

  /** When no card wins past the last card, part two is the number of
      copies of every card, added up in card order. */
  lemma SumCountsInOrder(cards: seq<Card>)
    requires Reach(cards, |cards|) == |cards|
    ensures SumCounts(cards, Ids(cards, |cards|)) == SumCopies(cards, |cards|)
  {
    SumCountsUpTo(cards, |cards|);
  }

  lemma {:induction false} SumCountsUpTo(cards: seq<Card>, t: nat)
    requires t <= |cards|
    ensures SumCounts(cards, UpTo(t)) == SumCopies(cards, t)
  {
    if t > 0 {
      SumCountsRemove(cards, UpTo(t), t);
      assert UpTo(t) - {t} == UpTo(t - 1);
      SumCountsUpTo(cards, t - 1);
      CountIsCopies(cards, t - 1);
    }
  }

  /** The keys of `counts` are the ids 1 up to `r`. */
  ghost predicate HeldUpTo(counts: map<nat, nat>, r: int) {
    forall y: nat :: y in counts <==> 1 <= y <= r
  }

  /** The state of the map after `t` cards: its keys are the ids held, and
      each holds the original plus the copies won so far. */
  ghost predicate CountsAfter(cards: seq<Card>, t: nat, counts: map<nat, nat>)
    requires t <= |cards|
  {
    HeldUpTo(counts, Reach(cards, t)) &&
    forall x | x in counts :: counts[x] == 1 + Contrib(cards, x, t)
  }

  /** `calc_part_2`: every id starts with one card; each card in turn adds
      its count to the ids it wins (inserting ids past the end with one
      card); the answer is the sum over the map, visited in any order.  The
      cards come from `exec`, numbered 1, 2, ... */
  method CalcPart2(cards: seq<Card>) returns (total: nat)
    requires forall k | 0 <= k < |cards| :: cards[k].id == k + 1
    ensures total == SumCounts(cards, Ids(cards, |cards|))
  {
    var counts: map<nat, nat> := map k | 0 <= k < |cards| :: cards[k].id := 1;
    InitialCounts(cards, counts);
    for t := 0 to |cards|
      invariant CountsAfter(cards, t, counts)
    {
      counts := ScoreCard(cards, t, counts);
    }
    assert counts.Keys == Ids(cards, |cards|);
    var rest := counts.Keys;
    total := 0;
    while rest != {}
      invariant rest <= counts.Keys
      invariant total + SumCounts(cards, rest) == SumCounts(cards, counts.Keys)
      decreases |rest|
    {
      var x :| x in rest;
      SumCountsRemove(cards, rest, x);
      total := total + counts[x];
      rest := rest - {x};
    }
  }

  /** One pass of the outer loop of `calc_part_2`: every id card `t` wins
      gets as many more cards as are held of card `t`. */
  method ScoreCard(cards: seq<Card>, t: nat, counts: map<nat, nat>) returns (next: map<nat, nat>)
    requires forall k | 0 <= k < |cards| :: cards[k].id == k + 1
    requires t < |cards| && CountsAfter(cards, t, counts)
    ensures CountsAfter(cards, t + 1, next)
  {
    next := counts;
    var card := cards[t];
    ReachAtLeast(cards, t);
    var current := next[card.id];
    assert current == Copies(cards, t);
    if card.matches > 0 {
      StartUpdating(cards, t, next);
      for x := card.id + 1 to card.id + card.matches + 1
        invariant Updating(cards, t, x, next)
      {
        UpdatingStep(cards, t, x, next);
        var held := if x in next then next[x] else 1;
        next := next[x := held + current];
      }
    }
    ScoredCard(cards, t, next);
  }

  lemma InitialCounts(cards: seq<Card>, counts: map<nat, nat>)
    requires forall k | 0 <= k < |cards| :: cards[k].id == k + 1
    requires counts == map k | 0 <= k < |cards| :: cards[k].id := 1
    ensures CountsAfter(cards, 0, counts)
  {
    forall y: nat ensures y in counts <==> 1 <= y <= |cards| {
      if 1 <= y <= |cards| {
        assert cards[y - 1].id == y;
      }
    }
  }

  /** Halfway through card `t`: the ids before `x` that it wins already
      hold its copies. */
  ghost predicate Updating(cards: seq<Card>, t: nat, x: nat, counts: map<nat, nat>)
    requires t < |cards|
  {
    t + 2 <= x &&
    HeldUpTo(counts, if x - 1 > Reach(cards, t) then x - 1 else Reach(cards, t)) &&
    forall y | y in counts :: counts[y] == 1 + Contrib(cards, y, t) + (if t + 1 < y < x then Copies(cards, t) else 0)
  }

  lemma {:induction false} ReachAtLeast(cards: seq<Card>, t: nat)
    requires t <= |cards|
    ensures Reach(cards, t) >= |cards|
    ensures forall j | 0 <= j < t :: j + 1 + cards[j].matches <= Reach(cards, t)
  {
    if t > 0 {
      ReachAtLeast(cards, t - 1);
    }
  }

  lemma StartUpdating(cards: seq<Card>, t: nat, counts: map<nat, nat>)
    requires t < |cards| && CountsAfter(cards, t, counts)
    ensures Updating(cards, t, t + 2, counts)
  {
    ReachAtLeast(cards, t);
  }

  /** Adding the copies of card `t` to id `x`, inserting `x` with one card
      first if it is not held yet. */
  lemma UpdatingStep(cards: seq<Card>, t: nat, x: nat, counts: map<nat, nat>)
    requires t < |cards| && x <= t + 1 + cards[t].matches && Updating(cards, t, x, counts)
    ensures var held := if x in counts then counts[x] else 1;
      Updating(cards, t, x + 1, counts[x := held + Copies(cards, t)])
  {
    if x !in counts {
      ContribBeyond(cards, x, t);
    }
  }

  /** Once card `t` has added its copies, the map is the state after `t + 1`
      cards. */
  lemma ScoredCard(cards: seq<Card>, t: nat, counts: map<nat, nat>)
    requires t < |cards|
    requires cards[t].matches > 0 ==> Updating(cards, t, t + 2 + cards[t].matches, counts)
    requires cards[t].matches == 0 ==> CountsAfter(cards, t, counts)
    ensures CountsAfter(cards, t + 1, counts)
  {
    ReachAtLeast(cards, t);
    forall y | y in counts
      ensures Contrib(cards, y, t + 1) == Contrib(cards, y, t) + (if Wins(cards, t, y) then Copies(cards, t) else 0)
    {
    }
  }

  /** `exec`: the lines of the input are cards numbered from 1; part 1 adds
      up their scores and part 2 counts the cards held at the end.  Any
      other part, or a line without its separators, has no answer. */
  method Exec(source: string, part: int) returns (r: Option<nat>)
    ensures ParseCards(Split(source, "\n")).None? || (part != 1 && part != 2) ==> r.None?
    ensures ParseCards(Split(source, "\n")).Some? && part == 1 ==>
      r == Some(SumScores(ParseCards(Split(source, "\n")).value))
    ensures ParseCards(Split(source, "\n")).Some? && part == 2 ==>
      var cards := ParseCards(Split(source, "\n")).value;
      r == Some(SumCounts(cards, Ids(cards, |cards|)))
  {
    var parsed := ParseCards(Split(source, "\n"));
    if parsed.None? || (part != 1 && part != 2) {
      return None;
    }
    var cards := parsed.value;
    if part == 1 {
      r := Some(SumScores(cards));
    } else {
      var total := CalcPart2(cards);
      r := Some(total);
    }
  }

  /** The cards of the part-two test: 1 + 2 + 4 = 7 cards in all. */
  lemma ExamplePart2()
    ensures var cards := [Card(1, 2), Card(2, 1), Card(3, 0)];
      SumCounts(cards, Ids(cards, |cards|)) == 7
  {
    var cards := [Card(1, 2), Card(2, 1), Card(3, 0)];
    assert Reach(cards, 3) == 3;
    SumCountsInOrder(cards);
    assert Copies(cards, 0) == 1;
    assert Copies(cards, 1) == 2 by {
      assert Contrib(cards, 2, 1) == Copies(cards, 0);
    }
    assert Copies(cards, 2) == 4 by {
      assert Contrib(cards, 3, 1) == Copies(cards, 0);
      assert Contrib(cards, 3, 2) == Contrib(cards, 3, 1) + Copies(cards, 1);
    }
  }

  /** A card with four matches scores 8, as the single-card test of part 1
      expects. */
  lemma ExampleScore()
    ensures SumScores([Card(1, 4)]) == 8
  {
    assert [Card(1, 4)][..0] == [];
  }

  // The expectations of the parsing tests

  /** Non-digits and then a block of digits spell the block's number. */
  lemma RunValuesFirst(w: string, d: string)
    requires NoDigits(w) && |d| > 0 && AllDigits(d)
    ensures RunValues(Runs(w + d)) == {Number(d)}
  {
    NoRuns(w);
    RunsAppendBlock(w, d);
    RunValuesSnoc([], Run(|w|, d));
    assert [] + [Run(|w|, d)] == [Run(|w|, d)];
  }

  /** Non-digits and then a block of digits add the block's number. */
  lemma RunValuesThen(p: string, w: string, d: string)
    requires |w| > 0 && NoDigits(w) && |d| > 0 && AllDigits(d)
    ensures RunValues(Runs(p + w + d)) == RunValues(Runs(p)) + {Number(d)}
  {
    RunsAppendNoDigits(p, w);
    assert (p + w)[|p + w| - 1] == w[|w| - 1];
    RunsAppendBlock(p + w, d);
    RunValuesSnoc(Runs(p), Run(|p + w|, d));
  }

  /** The digits 1, 2 and 3 apart, with any non-digits around them, give
      the numbers 1, 2 and 3. */
  lemma OneTwoThree(w0: string, w1: string, w2: string, w3: string)
    requires NoDigits(w0) && |w1| > 0 && NoDigits(w1) && |w2| > 0 && NoDigits(w2) && NoDigits(w3)
    ensures NumbersOf(w0 + "1" + w1 + "2" + w2 + "3" + w3) == {1, 2, 3}
  {
    assert Number("1") == 1 && Number("2") == 2 && Number("3") == 3;
    var p0 := w0 + "1";
    var p1 := p0 + w1 + "2";
    var p2 := p1 + w2 + "3";
    RunValuesFirst(w0, "1");
    RunValuesThen(p0, w1, "2");
    RunValuesThen(p1, w2, "3");
    RunsAppendNoDigits(p2, w3);
    NumbersOfUntrimmed(p2 + w3);
  }

  /** The six texts of the `extract_numbers` test: spaces before, between
      and after the digits make no difference. */
  lemma ExampleExtractNumbers(s: string)
    requires
      || s == "1" + " " + "2" + " " + "3"
      || s == " " + "1" + " " + "2" + " " + "3"
      || s == "1" + " " + "2" + " " + "3" + " "
      || s == "1" + " " + "2" + "  " + "3"
      || s == " " + "1" + "    " + "2" + "  " + "3"
      || s == "1" + "    " + "2" + "  " + "3" + "  "
    ensures NumbersOf(s) == {1, 2, 3}
  {
    assert "" + "1" == "1";
    if s == "1" + " " + "2" + " " + "3" {
      OneTwoThree("", " ", " ", "");
      assert s == "" + "1" + " " + "2" + " " + "3" + "";
    } else if s == " " + "1" + " " + "2" + " " + "3" {
      OneTwoThree(" ", " ", " ", "");
      assert s == " " + "1" + " " + "2" + " " + "3" + "";
    } else if s == "1" + " " + "2" + " " + "3" + " " {
      OneTwoThree("", " ", " ", " ");
      assert s == "" + "1" + " " + "2" + " " + "3" + " ";
    } else if s == "1" + " " + "2" + "  " + "3" {
      OneTwoThree("", " ", "  ", "");
      assert s == "" + "1" + " " + "2" + "  " + "3" + "";
    } else if s == " " + "1" + "    " + "2" + "  " + "3" {
      OneTwoThree(" ", "    ", "  ", "");
      assert s == " " + "1" + "    " + "2" + "  " + "3" + "";
    } else {
      OneTwoThree("", "    ", "  ", "  ");
      assert s == "" + "1" + "    " + "2" + "  " + "3" + "  ";
    }
  }

  /** "1 3" holds the numbers 1 and 3. */
  lemma NumbersOneThree(s: string)
    requires s == "1" + " " + "3"
    ensures NumbersOf(s) == {1, 3}
  {
    assert Number("1") == 1 && Number("3") == 3;
    RunValuesFirst("", "1");
    assert "" + "1" == "1";
    RunValuesThen("1", " ", "3");
    NumbersOfUntrimmed(s);
  }

  /** A card line whose name holds no colon and whose ticket holds no bar
      counts the numbers its ticket and winning numbers share. */
  lemma MatchCountOf(name: string, ticket: string, win: string)
    requires forall j | 0 <= j < |name| :: name[j] != ':'
    requires forall j | 0 <= j < |ticket| :: ticket[j] != '|'
    ensures MatchCount(name + ": " + ticket + " | " + win) == Some(|NumbersOf(ticket) * NumbersOf(win)|)
  {
    assert name + ": " + ticket + " | " + win == name + ": " + (ticket + " | " + win);
    SplitOnceAt(name, ": ", ticket + " | " + win, 0);
    SplitOnceAt(ticket, " | ", win, 1);
  }

  /** The tickets of the parsing tests share two and four numbers with
      their winning numbers. */
  lemma SharedOneThree()
    ensures |{1, 2, 3} * {1, 3}| == 2
  {
    assert {1, 2, 3} * {1, 3} == {1, 3};
  }

  lemma SharedFour()
    ensures |{41, 48, 83, 86, 17} * {83, 86, 6, 31, 17, 9, 48, 53}| == 4
  {
    assert {41, 48, 83, 86, 17} * {83, 86, 6, 31, 17, 9, 48, 53} == {48, 83, 86, 17};
  }

  /** "Game 1: 1 2 3 | 1 3" has the matches 1 and 3. */
  lemma ExampleTwoMatches(line: string)
    requires line == "Game 1" + ": " + ("1" + " " + "2" + " " + "3") + " | " + ("1" + " " + "3")
    ensures ParseLine(1, line) == Some(Card(1, 2))
  {
    var ticket, win := "1" + " " + "2" + " " + "3", "1" + " " + "3";
    MatchCountOf("Game 1", ticket, win);
    ExampleExtractNumbers(ticket);
    NumbersOneThree(win);
    SharedOneThree();
  }

  /** A number of one or two digits. */
  lemma NumberOfDigits(d: string)
    requires 0 < |d| <= 2 && AllDigits(d)
    ensures |d| == 1 ==> Number(d) == DigitValue(d[0])
    ensures |d| == 2 ==> Number(d) == 10 * DigitValue(d[0]) + DigitValue(d[1])
  {
    assert ParseNat(d) == Some(DigitsValue(d));
    if |d| == 1 {
      assert d[..0] == [];
    } else {
      assert d[..1][..0] == [] && d[..1][0] == d[0];
      assert DigitsValue(d[..1]) == DigitValue(d[0]);
    }
  }

  lemma UnionOfFive(a: nat, b: nat, c: nat, d: nat, e: nat)
    ensures {a} + {b} + {c} + {d} + {e} == {a, b, c, d, e}
  {
  }

  /** Five runs of digits separated by non-empty gaps without digits spell their five numbers. */
  lemma FiveRuns(d0: string, w1: string, d1: string, w2: string, d2: string, w3: string, d3: string, w4: string, d4: string)
    requires |d0| > 0 && AllDigits(d0) && |d1| > 0 && AllDigits(d1) && |d2| > 0 && AllDigits(d2)
    requires |d3| > 0 && AllDigits(d3) && |d4| > 0 && AllDigits(d4)
    requires |w1| > 0 && NoDigits(w1) && |w2| > 0 && NoDigits(w2) && |w3| > 0 && NoDigits(w3) && |w4| > 0 && NoDigits(w4)
    ensures NumbersOf(d0 + w1 + d1 + w2 + d2 + w3 + d3 + w4 + d4)
      == {Number(d0), Number(d1), Number(d2), Number(d3), Number(d4)}
  {
    var p1 := d0 + w1 + d1;
    var p2 := p1 + w2 + d2;
    var p3 := p2 + w3 + d3;
    var p4 := p3 + w4 + d4;
    RunValuesFirst("", d0);
    assert "" + d0 == d0;
    RunValuesThen(d0, w1, d1);
    RunValuesThen(p1, w2, d2);
    RunValuesThen(p2, w3, d3);
    RunValuesThen(p3, w4, d4);
    assert RunValues(Runs(p4)) == {Number(d0)} + {Number(d1)} + {Number(d2)} + {Number(d3)} + {Number(d4)};
    UnionOfFive(Number(d0), Number(d1), Number(d2), Number(d3), Number(d4));
    NumbersOfUntrimmed(p4);
  }

  lemma UnionOfEight(a: nat, b: nat, c: nat, d: nat, e: nat, f: nat, g: nat, h: nat)
    ensures {a} + {b} + {c} + {d} + {e} + {f} + {g} + {h} == {a, b, c, d, e, f, g, h}
  {
  }

  /** Eight runs of digits separated by non-empty gaps without digits spell their eight numbers. */
  lemma EightRuns(d0: string, w1: string, d1: string, w2: string, d2: string, w3: string, d3: string, w4: string, d4: string, w5: string, d5: string, w6: string, d6: string, w7: string, d7: string)
    requires |d0| > 0 && AllDigits(d0) && |d1| > 0 && AllDigits(d1) && |d2| > 0 && AllDigits(d2) && |d3| > 0 && AllDigits(d3) && |d4| > 0 && AllDigits(d4) && |d5| > 0 && AllDigits(d5) && |d6| > 0 && AllDigits(d6) && |d7| > 0 && AllDigits(d7)
    requires |w1| > 0 && NoDigits(w1) && |w2| > 0 && NoDigits(w2) && |w3| > 0 && NoDigits(w3) && |w4| > 0 && NoDigits(w4) && |w5| > 0 && NoDigits(w5) && |w6| > 0 && NoDigits(w6) && |w7| > 0 && NoDigits(w7)
    ensures NumbersOf(d0 + w1 + d1 + w2 + d2 + w3 + d3 + w4 + d4 + w5 + d5 + w6 + d6 + w7 + d7)
      == {Number(d0), Number(d1), Number(d2), Number(d3), Number(d4), Number(d5), Number(d6), Number(d7)}
  {
    var p1 := d0 + w1 + d1;
    var p2 := p1 + w2 + d2;
    var p3 := p2 + w3 + d3;
    var p4 := p3 + w4 + d4;
    var p5 := p4 + w5 + d5;
    var p6 := p5 + w6 + d6;
    var p7 := p6 + w7 + d7;
    RunValuesFirst("", d0);
    assert "" + d0 == d0;
    RunValuesThen(d0, w1, d1);
    RunValuesThen(p1, w2, d2);
    RunValuesThen(p2, w3, d3);
    RunValuesThen(p3, w4, d4);
    RunValuesThen(p4, w5, d5);
    RunValuesThen(p5, w6, d6);
    RunValuesThen(p6, w7, d7);
    assert RunValues(Runs(p7)) == {Number(d0)} + {Number(d1)} + {Number(d2)} + {Number(d3)} + {Number(d4)} + {Number(d5)} + {Number(d6)} + {Number(d7)};
    UnionOfEight(Number(d0), Number(d1), Number(d2), Number(d3), Number(d4), Number(d5), Number(d6), Number(d7));
    NumbersOfUntrimmed(p7);
  }

  /** The numbers of the ticket of the second parsing test. */
  lemma TicketNumbers(s: string)
    requires s == "41" + " " + "48" + " " + "83" + " " + "86" + " " + "17"
    ensures NumbersOf(s) == {41, 48, 83, 86, 17}
  {
    FiveRuns("41", " ", "48", " ", "83", " ", "86", " ", "17");
    NumberOfDigits("41");
    NumberOfDigits("48");
    NumberOfDigits("83");
    NumberOfDigits("86");
    NumberOfDigits("17");
  }

  /** The winning numbers of the second parsing test. */
  lemma WinningNumbers(s: string)
    requires s == "83" + " " + "86" + "  " + "6" + " " + "31" + " " + "17" + "  " + "9" + " " + "48" + " " + "53"
    ensures NumbersOf(s) == {83, 86, 6, 31, 17, 9, 48, 53}
  {
    EightRuns("83", " ", "86", "  ", "6", " ", "31", " ", "17", "  ", "9", " ", "48", " ", "53");
    NumberOfDigits("83");
    NumberOfDigits("86");
    NumberOfDigits("6");
    NumberOfDigits("31");
    NumberOfDigits("17");
    NumberOfDigits("9");
    NumberOfDigits("48");
    NumberOfDigits("53");
  }

  /** The card of the second parsing test has four matches: 48, 83, 86 and
      17. */
  lemma FourMatches(line: string)
    requires line == "Card 1" + ": " + ("41" + " " + "48" + " " + "83" + " " + "86" + " " + "17")
      + " | " + ("83" + " " + "86" + "  " + "6" + " " + "31" + " " + "17" + "  " + "9" + " " + "48" + " " + "53")
    ensures MatchCount(line) == Some(4)
  {
    var ticket := "41" + " " + "48" + " " + "83" + " " + "86" + " " + "17";
    var win := "83" + " " + "86" + "  " + "6" + " " + "31" + " " + "17" + "  " + "9" + " " + "48" + " " + "53";
    MatchCountOf("Card 1", ticket, win);
    TicketNumbers(ticket);
    WinningNumbers(win);
    SharedFour();
  }

  /** Lines whose match counts are `ms` read as the cards numbered 1 on
      with those counts. */
  lemma ParseCardsSome(lines: seq<string>, ms: seq<nat>)
    requires |ms| == |lines| && forall k | 0 <= k < |lines| :: MatchCount(lines[k]) == Some(ms[k])
    ensures ParseCards(lines) == Some(Numbered(ms))
  {
    AllSomeIs(MatchCounts(lines), ms);
  }

  /** One line whose match count is `m` reads as one card, numbered 1. */
  lemma OneCard(line: string, m: nat)
    requires MatchCount(line) == Some(m)
    ensures ParseCards([line]) == Some([Card(1, m)])
  {
    NumberedOne(m);
    assert forall k | 0 <= k < 1 :: MatchCount([line][k]) == Some([m][k]) by {
      assert [line][0] == line;
    }
    ParseCardsSome([line], [m]);
  }

  lemma NumberedOne(m: nat)
    ensures Numbered([m]) == [Card(1, m)]
  {
    var cards := Numbered([m]);
    assert cards[0] == Card(1, m);
  }

  /** A text of one line without line breaks reads as the one card of that
      line, numbered 1. */
  lemma OneCardLine(line: string, m: nat)
    requires '\n' !in line && MatchCount(line) == Some(m)
    ensures ParseCards(Split(line, "\n")) == Some([Card(1, m)])
  {
    SplitNoChar(line, '\n');
    assert Split(line, "\n") == [line];
    OneCard(line, m);
  }

  /** The second parsing test: the card has four matches, and the source
      made of that one line is one card that scores 8. */
  lemma ExampleFourMatches(line: string)
    requires line == "Card 1" + ": " + ("41" + " " + "48" + " " + "83" + " " + "86" + " " + "17")
      + " | " + ("83" + " " + "86" + "  " + "6" + " " + "31" + " " + "17" + "  " + "9" + " " + "48" + " " + "53")
    ensures ParseLine(1, line) == Some(Card(1, 4))
    ensures ParseCards(Split(line, "\n")) == Some([Card(1, 4)])
    ensures SumScores(ParseCards(Split(line, "\n")).value) == 8
  {
    assert '\n' !in line;
    FourMatches(line);
    OneCardLine(line, 4);
    ExampleScore();
  }
}
