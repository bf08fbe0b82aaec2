/** Day 7: Camel Cards.  Hands of five cards are ranked by how their cards
    group, ties are broken card by card, and the winnings are every bet
    times the hand's place in the sorted list.  Part 2 replays the game
    with jacks as jokers. */
module Day7 {
  import opened Common

  datatype GameMode = Standard | Joker

  /** A hand: its card values as parsed (2 to 14, jacks 11) and its bet. */
  datatype Hand = Hand(mode: GameMode, cards: seq<nat>, bet: nat)

  datatype Ordering = Less | Equal | Greater {
    function Reverse(): Ordering {
      match this
      case Less => Greater
      case Equal => Equal
      case Greater => Less
    }
  }

  // ---------------------------------------------------------------------
  // Parsing

  /** `FACE_VALUE`. */
  function FaceValue(c: char): Option<nat> {
    match c
    case 'A' => Some(14)
    case 'K' => Some(13)
    case 'Q' => Some(12)
    case 'J' => Some(11)
    case 'T' => Some(10)
    case _ => None
  }

  /** A face card by the table, any other card by its decimal digit. */
  function CardValue(c: char): (r: Option<nat>)
    ensures r.Some? <==> FaceValue(c).Some? || IsDigit(c)
    ensures IsDigit(c) ==> r == Some(DigitValue(c))
  {
    match FaceValue(c)
    case Some(v) => Some(v)
    case None => if IsDigit(c) then Some(DigitValue(c)) else None
  }

  /** `parse_line`: the cards before the first space, the bet after it; a
      Standard hand.  `None` where the source panics: no space, a bet that
      is not a number, a card that is neither a face nor a digit, or a
      count of cards other than five. */
  function ParseLine(line: string): (r: Option<Hand>)
    ensures r.Some? ==> r.value.mode == Standard && |r.value.cards| == 5
  {
    match SplitOnce(line, " ")
    case None => None
    case Some((left, right)) =>
      match (ParseNat(right), AllSome(seq(|left|, k requires 0 <= k < |left| => CardValue(left[k]))))
      case (Some(bet), Some(cards)) => if |cards| == 5 then Some(Hand(Standard, cards, bet)) else None
      case _ => None
  }

  /** The card values of a hand are those of its characters, in order. */
  lemma ParseLineCards(line: string, cut: nat)
    requires cut < |line| && line[cut] == ' ' && forall j | 0 <= j < cut :: line[j] != ' '
    requires ParseLine(line).Some?
    ensures cut == 5 && ParseNat(line[cut + 1..]) == Some(ParseLine(line).value.bet)
    ensures forall k | 0 <= k < 5 :: CardValue(line[k]) == Some(ParseLine(line).value.cards[k])
  {
    FindAtFirstChar(line, " ", cut);
    var left := line[..cut];
    var xs := seq(|left|, k requires 0 <= k < |left| => CardValue(left[k]));
    assert forall k | 0 <= k < cut :: xs[k] == CardValue(line[k]);
  }

  // ---------------------------------------------------------------------
  // Ranking

  /** `Hand::cards`: in Joker mode every jack (11) counts as a joker (1);
      otherwise the cards are unchanged. */
  function Cards(h: Hand): (cs: seq<nat>)
    ensures |cs| == |h.cards|
    ensures h.mode == Standard ==> cs == h.cards
    ensures forall k | 0 <= k < |cs| :: cs[k] == if h.mode == Joker && h.cards[k] == 11 then 1 else h.cards[k]
  {
    seq(|h.cards|, k requires 0 <= k < |h.cards| =>
      h.cards[k] - (if h.cards[k] == 11 && h.mode == Joker then 10 else 0))
  }

  /** How many of the cards have value `v`. */
  function Mult(cs: seq<nat>, v: int): nat {
    if cs == [] then 0 else Mult(cs[..|cs| - 1], v) + (if cs[|cs| - 1] == v then 1 else 0)
  }

  /** The `(count, value)` pairs for the values 1 to 14. */
  function Counts(cs: seq<nat>): (ps: seq<(nat, nat)>)
    ensures |ps| == 14 && forall i | 0 <= i < 14 :: ps[i] == (Mult(cs, i + 1), i + 1)
  {
    seq(14, i requires 0 <= i < 14 => (Mult(cs, i + 1), i + 1))
  }

  /** The order `counts.sort()` puts pairs in: by count, then by value. */
  predicate Above(a: (nat, nat), b: (nat, nat)) {
    a.0 > b.0 || (a.0 == b.0 && a.1 > b.1)
  }

  /** The largest pair whose value is not `skip`, or `(0, 0)` if there is
      none: the first and second entries of the reverse-sorted counts are
      `Largest(counts, 0)` and `Largest(counts, first value)`. */
  function Largest(ps: seq<(nat, nat)>, skip: int): (r: (nat, nat))
    requires forall k | 0 <= k < |ps| :: ps[k].1 >= 1
    ensures r == (0, 0) || exists k | 0 <= k < |ps| :: ps[k] == r && r.1 != skip
    ensures forall k | 0 <= k < |ps| && ps[k].1 != skip :: ps[k] == r || Above(r, ps[k])
  {
    if ps == [] then (0, 0)
    else
      var r := Largest(ps[..|ps| - 1], skip);
      var p := ps[|ps| - 1];
      assert forall k | 0 <= k < |ps| - 1 :: ps[..|ps| - 1][k] == ps[k];
      if p.1 != skip && Above(p, r) then p else r
  }

  /** The rank of the two largest counts: five of a kind 6, four of a kind
      5, full house 4, three of a kind 3, two pairs 2, one pair 1,
      anything else 0. */
  function Classify(count1: nat, count2: nat): (rank: nat)
    ensures rank <= 6
  {
    if count1 == 5 then 6
    else if count1 == 4 then 5
    else if count1 == 3 && count2 == 2 then 4
    else if count1 == 3 then 3
    else if count1 == 2 && count2 == 2 then 2
    else if count1 == 2 then 1
    else 0
  }

  /** `Hand::hand_rank`: the jokers join the largest group, or the second
      largest when the jokers themselves are the largest group. */
  function HandRank(h: Hand): (rank: nat)
    ensures rank <= 6
  {
    var cs := Cards(h);
    var first := Largest(Counts(cs), 0);
    var second := Largest(Counts(cs), first.1);
    JokerRank(first.0, first.1, second.0, second.1, Mult(cs, 1))
  }

  /** The rank from the two largest `(count, value)` pairs and the number
      of jokers. */
  function JokerRank(count1: nat, best: nat, count2: nat, next: nat, jokers: nat): (rank: nat)
    ensures rank <= 6
  {
    if best != 1 then Classify(count1 + jokers, count2)
    else if next != 1 then Classify(count1, count2 + jokers)
    else Classify(count1, count2)
  }

  // Multiplicities

  lemma {:induction false} MultBound(cs: seq<nat>, a: int, b: int)
    requires a != b
    ensures Mult(cs, a) + Mult(cs, b) <= |cs|
  {
    if cs != [] {
      MultBound(cs[..|cs| - 1], a, b);
    }
  }

  lemma {:induction false} MultAt(cs: seq<nat>, k: nat)
    requires k < |cs|
    ensures Mult(cs, cs[k]) >= 1
  {
    if k < |cs| - 1 {
      MultAt(cs[..|cs| - 1], k);
    }
  }

  lemma {:induction false} MultAbsent(cs: seq<nat>, v: int)
    requires forall k | 0 <= k < |cs| :: cs[k] != v
    ensures Mult(cs, v) == 0
  {
    if cs != [] {
      MultAbsent(cs[..|cs| - 1], v);
    }
  }

  /** When two values do not fill the hand, some card has a third value. */
  lemma {:induction false} MultOther(cs: seq<nat>, a: int, b: int)
    requires Mult(cs, a) + Mult(cs, b) < |cs|
    ensures exists k | 0 <= k < |cs| :: cs[k] != a && cs[k] != b
  {
    var last := cs[|cs| - 1];
    if last == a || last == b {
      MultOther(cs[..|cs| - 1], a, b);
      var k :| 0 <= k < |cs| - 1 && cs[..|cs| - 1][k] != a && cs[..|cs| - 1][k] != b;
      assert cs[k] != a && cs[k] != b;
    }
  }

  /** The cards of a hand are real cards, 2 to 14. */
  predicate RealCards(cards: seq<nat>) {
    |cards| == 5 && forall k | 0 <= k < |cards| :: 2 <= cards[k] <= 14
  }

  /** What the two largest counts of a hand say about its multiplicities. */
  predicate TopTwo(cs: seq<nat>, count1: nat, best: nat, count2: nat, next: nat) {
    && 1 <= best <= 14 && 1 <= next <= 14 && best != next
    && count1 == Mult(cs, best) && count2 == Mult(cs, next)
    && (forall v | 1 <= v <= 14 :: Mult(cs, v) <= count1)
    && (forall v | 1 <= v <= 14 && Mult(cs, v) == count1 :: v <= best)
    && (forall v | 1 <= v <= 14 && v != best :: Mult(cs, v) <= count2)
  }

  lemma TopTwoOf(cs: seq<nat>)
    ensures var first := Largest(Counts(cs), 0);
      var second := Largest(Counts(cs), first.1);
      TopTwo(cs, first.0, first.1, second.0, second.1)
  {
    var counts := Counts(cs);
    var (count1, best) := Largest(counts, 0);
    assert (count1, best) != (0, 0) by {
      assert counts[0].1 != 0;
    }
    var (count2, next) := Largest(counts, best);
    assert (count2, next) != (0, 0) by {
      var i := if best == 1 then 1 else 0;
      assert counts[i].1 != best;
    }
    forall v | 1 <= v <= 14 ensures Mult(cs, v) <= count1 && (Mult(cs, v) == count1 ==> v <= best) {
      assert counts[v - 1] == (Mult(cs, v), v);
    }
    forall v | 1 <= v <= 14 && v != best ensures Mult(cs, v) <= count2 {
      assert counts[v - 1] == (Mult(cs, v), v);
    }
  }

  /** Reference: the kind of a hand, read off its multiplicities. */
  ghost function Kind(cs: seq<nat>): nat {
    if exists v :: Mult(cs, v) == 5 then 6
    else if exists v :: Mult(cs, v) == 4 then 5
    else if exists v, w :: Mult(cs, v) == 3 && Mult(cs, w) == 2 then 4
    else if exists v :: Mult(cs, v) == 3 then 3
    else if exists v, w :: v != w && Mult(cs, v) == 2 && Mult(cs, w) == 2 then 2
    else if exists v :: Mult(cs, v) == 2 then 1
    else 0
  }

  /** A Standard hand of real cards is ranked by its kind. */
  lemma StandardRank(h: Hand)
    requires h.mode == Standard && RealCards(h.cards)
    ensures HandRank(h) == Kind(h.cards)
  {
    var cs := h.cards;
    var count1, best, count2, next := HandRankTop(h);
    MultAbsent(cs, 1);
    RankOfCounts(cs, count1, best, count2, next);
  }

  /** The kind of a hand depends only on its two largest counts. */
  lemma RankOfCounts(cs: seq<nat>, count1: nat, best: nat, count2: nat, next: nat)
    requires |cs| == 5 && (forall k | 0 <= k < 5 :: 1 <= cs[k] <= 14)
    requires TopTwo(cs, count1, best, count2, next)
    ensures Classify(count1, count2) == Kind(cs)
  {
    MultBound(cs, best, next);
    forall v | Mult(cs, v) > 0 ensures 1 <= v <= 14 {
      if !(1 <= v <= 14) {
        MultAbsent(cs, v);
      }
    }
    forall v | v != best ensures Mult(cs, v) + count1 <= 5 {
      MultBound(cs, v, best);
    }
  }

  // Jokers

  /** Every card `a` turned into `b`. */
  function Replace(cs: seq<nat>, a: nat, b: nat): (r: seq<nat>)
    ensures |r| == |cs| && forall k | 0 <= k < |cs| :: r[k] == if cs[k] == a then b else cs[k]
  {
    seq(|cs|, k requires 0 <= k < |cs| => if cs[k] == a then b else cs[k])
  }

  lemma {:induction false} MultReplace(cs: seq<nat>, a: nat, b: nat, u: int)
    requires a != b
    ensures Mult(Replace(cs, a, b), u) ==
      if u == b then Mult(cs, b) + Mult(cs, a) else if u == a then 0 else Mult(cs, u)
  {
    if cs != [] {
      assert Replace(cs, a, b)[..|cs| - 1] == Replace(cs[..|cs| - 1], a, b);
      MultReplace(cs[..|cs| - 1], a, b, u);
    }
  }

  /** The rank of a hand in terms of its two largest counts. */
  lemma HandRankTop(h: Hand) returns (count1: nat, best: nat, count2: nat, next: nat)
    ensures TopTwo(Cards(h), count1, best, count2, next)
    ensures HandRank(h) == JokerRank(count1, best, count2, next, Mult(Cards(h), 1))
  {
    var cs := Cards(h);
    TopTwoOf(cs);
    var first := Largest(Counts(cs), 0);
    var second := Largest(Counts(cs), first.1);
    count1, best, count2, next := first.0, first.1, second.0, second.1;
  }

  /** The kind of a hand in terms of its two largest counts. */
  lemma KindTop(cs: seq<nat>) returns (count1: nat, best: nat, count2: nat, next: nat)
    requires |cs| == 5 && forall k | 0 <= k < 5 :: 1 <= cs[k] <= 14
    ensures TopTwo(cs, count1, best, count2, next)
    ensures Kind(cs) == Classify(count1, count2)
  {
    TopTwoOf(cs);
    var first := Largest(Counts(cs), 0);
    var second := Largest(Counts(cs), first.1);
    count1, best, count2, next := first.0, first.1, second.0, second.1;
    RankOfCounts(cs, count1, best, count2, next);
  }

  /** When no card value is outnumbered by the jacks, a hand in Joker mode
      ranks as the Standard hand in which every joker is a card of the
      largest group. */
  lemma JokersJoinLargest(h: Hand, v: nat)
    requires h.mode == Joker && RealCards(h.cards) && 2 <= v <= 14 && v != 11
    requires forall u | 2 <= u <= 14 && u != 11 :: Mult(h.cards, u) <= Mult(h.cards, v)
    requires Mult(h.cards, 11) <= Mult(h.cards, v)
    ensures HandRank(h) == Kind(Replace(h.cards, 11, v))
  {
    var cs := Cards(h);
    assert cs == Replace(h.cards, 11, 1);
    var cs' := Replace(h.cards, 11, v);
    var count1, best, count2, next := HandRankTop(h);
    var count1', best', count2', next' := KindTop(cs');
    JokerCounts(h.cards, v, count1, best, count2, next, count1', best', count2', next');
    assert HandRank(h) == JokerRank(count1, best, count2, next, Mult(cs, 1));
  }

  /** The counts behind `JokersJoinLargest`. */
  lemma JokerCounts(cards: seq<nat>, v: nat, count1: nat, best: nat, count2: nat, next: nat,
                    count1': nat, best': nat, count2': nat, next': nat)
    requires RealCards(cards) && 2 <= v <= 14 && v != 11
    requires forall u | 2 <= u <= 14 && u != 11 :: Mult(cards, u) <= Mult(cards, v)
    requires Mult(cards, 11) <= Mult(cards, v)
    requires TopTwo(Replace(cards, 11, 1), count1, best, count2, next)
    requires TopTwo(Replace(cards, 11, v), count1', best', count2', next')
    ensures best != 1
    ensures JokerRank(count1, best, count2, next, Mult(Replace(cards, 11, 1), 1)) == Classify(count1', count2')
  {
    var cs, cs' := Replace(cards, 11, 1), Replace(cards, 11, v);
    var jokers, m := Mult(cards, 11), Mult(cards, v);
    MultBound(cards, v, 11);
    JokerMults(cards, v);
    assert best != 1;
    assert count1 == m;
    assert count1' == m + jokers by {
      assert Mult(cs', v) == m + jokers;
    }
    assert Classify(m + jokers, count2) == Classify(m + jokers, count2') by {
      var f: int -> nat := u => Mult(cs, u);
      var g: int -> nat := u => Mult(cs', u);
      var c: int -> nat := u => Mult(cards, u);
      assert 1 <= next <= 14 && next != best && f(next) == count2;
      assert 1 <= next' <= 14 && next' != best' && g(next') == count2';
      JokerSecond(m, jokers, count2, count2', f, g, c, best, best', v);
    }
    assert Mult(cs, 1) == jokers;
  }

  /** The multiplicities of a hand whose jacks became jokers (1), and of
      the hand whose jacks became `v`s. */
  lemma JokerMults(cards: seq<nat>, v: nat)
    requires RealCards(cards) && v != 11
    ensures Mult(cards, 1) == 0
    ensures forall u ::
      Mult(Replace(cards, 11, 1), u) == (if u == 1 then Mult(cards, 11) else if u == 11 then 0 else Mult(cards, u))
    ensures forall u ::
      Mult(Replace(cards, 11, v), u) == (if u == v then Mult(cards, v) + Mult(cards, 11) else if u == 11 then 0 else Mult(cards, u))
  {
    MultAbsent(cards, 1);
    forall u ensures Mult(Replace(cards, 11, 1), u) ==
      if u == 1 then Mult(cards, 11) else if u == 11 then 0 else Mult(cards, u)
    {
      MultReplace(cards, 11, 1, u);
    }
    forall u ensures Mult(Replace(cards, 11, v), u) ==
      if u == v then Mult(cards, v) + Mult(cards, 11) else if u == 11 then 0 else Mult(cards, u)
    {
      MultReplace(cards, 11, v, u);
    }
  }

  /** The second count only matters for two or three of a kind, and there
      the jokers' hand (multiplicities `f`) and the replaced hand
      (multiplicities `g`) agree on it; `c` are the multiplicities of the
      cards as parsed. */
  lemma JokerSecond(m: nat, jokers: nat, count2: nat, count2': nat, f: int -> nat, g: int -> nat, c: int -> nat,
                    best: nat, best': nat, v: nat)
    requires 1 <= best <= 14 && 1 <= best' <= 14 && 2 <= v <= 14 && v != 11 && best != 1 && m + jokers <= 5
    requires forall u :: f(u) == (if u == 1 then jokers else if u == 11 then 0 else c(u))
    requires forall u :: g(u) == (if u == v then m + jokers else if u == 11 then 0 else c(u))
    requires c(1) == 0 && c(v) == m && jokers <= m
    requires forall u | 2 <= u <= 14 && u != 11 :: c(u) <= m
    requires f(best) == m && g(best') == m + jokers
    requires forall u | 1 <= u <= 14 && u != best :: f(u) <= count2
    requires forall u | 1 <= u <= 14 && u != best' :: g(u) <= count2'
    requires exists u | 1 <= u <= 14 && u != best :: f(u) == count2
    requires exists u | 1 <= u <= 14 && u != best' :: g(u) == count2'
    ensures Classify(m + jokers, count2) == Classify(m + jokers, count2')
  {
    var w :| 1 <= w <= 14 && w != best && f(w) == count2;
    var w' :| 1 <= w' <= 14 && w' != best' && g(w') == count2';
    if jokers == 0 {
      assert forall u :: f(u) == g(u);
      if best != best' {
        assert f(best') == m;
        assert g(best) == m;
        assert count2 == m && count2' == m;
      } else {
        assert count2 == count2';
      }
    } else if m + jokers == 2 || m + jokers == 3 {
      assert best' == v;
      if m == 1 {
        assert count2 <= 1 && count2' <= 1;
      } else {
        assert jokers == 1 && m == 2;
        if count2 == 2 {
          assert w != 1 && w != 11;
          if w == v {
            assert g(best) == 2;
          } else {
            assert g(w) == 2;
          }
        }
        if count2' == 2 {
          if w' == best {
            assert f(v) == 2;
          } else {
            assert f(w') == 2;
          }
        }
      }
    }
  }

  // ---------------------------------------------------------------------
  // Ordering

  /** Lexicographic order; a sequence that runs out first is the smaller
      (hands always hold five cards, so this never decides between two
      hands). */
  function Lex(a: seq<int>, b: seq<int>): Ordering {
    if a == [] || b == [] then (if |a| < |b| then Less else if |a| > |b| then Greater else Equal)
    else if a[0] < b[0] then Less
    else if a[0] > b[0] then Greater
    else Lex(a[1..], b[1..])
  }

  /** `sort_cards`: by rank, then by the first card that differs, comparing
      the cards as parsed (a jack is 11 here even in Joker mode). */
  function Compare(a: Hand, b: Hand): Ordering {
    if HandRank(a) < HandRank(b) then Less
    else if HandRank(a) > HandRank(b) then Greater
    else Lex(a.cards, b.cards)
  }

  /** The sort key that `Compare` orders lexicographically. */
  function Key(h: Hand): seq<int> {
    [HandRank(h)] + h.cards
  }

  lemma CompareByKey(a: Hand, b: Hand)
    ensures Compare(a, b) == Lex(Key(a), Key(b))
  {
    assert Key(a)[1..] == a.cards && Key(b)[1..] == b.cards;
  }

  lemma {:induction false} LexEqual(a: seq<int>, b: seq<int>)
    ensures Lex(a, b) == Equal <==> a == b
  {
    if a != [] && b != [] {
      LexEqual(a[1..], b[1..]);
      if a[0] == b[0] && a[1..] == b[1..] {
        assert a == [a[0]] + a[1..] && b == [b[0]] + b[1..];
      }
    }
  }

  lemma {:induction false} LexReverse(a: seq<int>, b: seq<int>)
    ensures Lex(b, a) == Lex(a, b).Reverse()
  {
    if a != [] && b != [] {
      LexReverse(a[1..], b[1..]);
    }
  }

  lemma {:induction false} LexTransitive(a: seq<int>, b: seq<int>, c: seq<int>)
    requires Lex(a, b) != Greater && Lex(b, c) != Greater
    ensures Lex(a, c) != Greater
  {
    if a != [] && b != [] && c != [] && a[0] == b[0] == c[0] {
      LexTransitive(a[1..], b[1..], c[1..]);
    }
  }

  /** The order is a total preorder: swapping the hands reverses it, it is
      transitive, and two hands are equal in it exactly when they have the
      same rank and the same cards. */
  lemma CompareReverse(a: Hand, b: Hand)
    ensures Compare(b, a) == Compare(a, b).Reverse()
    ensures Compare(a, b) == Equal <==> HandRank(a) == HandRank(b) && a.cards == b.cards
  {
    LexReverse(a.cards, b.cards);
    LexEqual(a.cards, b.cards);
  }

  lemma CompareTransitive(a: Hand, b: Hand, c: Hand)
    requires Compare(a, b) != Greater && Compare(b, c) != Greater
    ensures Compare(a, c) != Greater
  {
    CompareByKey(a, b);
    CompareByKey(b, c);
    CompareByKey(a, c);
    LexTransitive(Key(a), Key(b), Key(c));
  }

  /** `sort_cards`. */
  method SortCards(a: Hand, b: Hand) returns (ordering: Ordering)
    requires |a.cards| == |b.cards|
    ensures ordering == Compare(a, b)
  {
    var ra, rb := HandRank(a), HandRank(b);
    if ra < rb {
      ordering := Less;
    } else if ra > rb {
      ordering := Greater;
    } else {
      ordering := TieBreak(a.cards, b.cards);
    }
  }

  /** The loop of `sort_cards` that breaks a tie: the comparison of the
      first pair of cards that differ, or `Equal` when none do. */
  method TieBreak(a: seq<nat>, b: seq<nat>) returns (ordering: Ordering)
    requires |a| == |b|
    ensures ordering == Lex(a, b)
  {
    ordering := Equal;
    for index := 0 to |a|
      invariant ordering == Equal
      invariant Lex(a, b) == Lex(a[index..], b[index..])
    {
      assert a[index..][1..] == a[index + 1..];
      assert b[index..][1..] == b[index + 1..];
      ordering := if a[index] < b[index] then Less else if a[index] > b[index] then Greater else Equal;
      if ordering == Equal {
        continue;
      }
      break;
    }
  }

  // ---------------------------------------------------------------------
  // Sorting and winnings

  /** No hand ranks above a later one. */
  predicate Sorted(hs: seq<Hand>) {
    forall i, j | 0 <= i < j < |hs| :: Compare(hs[i], hs[j]) != Greater
  }

  /** In order by `key`: no hand's key is above a later hand's. */
  predicate SortedBy(hs: seq<Hand>, key: Hand -> seq<int>) {
    forall i, j | 0 <= i < j < |hs| :: Lex(key(hs[i]), key(hs[j])) != Greater
  }

  /** Where a hand with key `k` goes: after every hand whose key is not
      above it, so that hands that compare equal keep their order. */
  function InsertAt(k: seq<int>, hs: seq<Hand>, key: Hand -> seq<int>): (i: nat)
    ensures i <= |hs|
  {
    if hs == [] || Lex(key(hs[0]), k) == Greater then 0 else 1 + InsertAt(k, hs[1..], key)
  }

  function Insert(h: Hand, hs: seq<Hand>, key: Hand -> seq<int>): (r: seq<Hand>)
    ensures multiset(r) == multiset(hs) + multiset{h}
  {
    var i := InsertAt(key(h), hs, key);
    assert hs == hs[..i] + hs[i..];
    hs[..i] + [h] + hs[i..]
  }

  /** A stable sort by `key`, by insertion. */
  function SortBy(hs: seq<Hand>, key: Hand -> seq<int>): (r: seq<Hand>)
    ensures multiset(r) == multiset(hs)
  {
    if hs == [] then []
    else
      assert hs == hs[..|hs| - 1] + [hs[|hs| - 1]];
      Insert(hs[|hs| - 1], SortBy(hs[..|hs| - 1], key), key)
  }

  /** `sort_by(sort_cards)`: a stable sort in the order of `Compare`. */
  function SortHands(hs: seq<Hand>): (r: seq<Hand>) {
    SortBy(hs, Key)
  }

  lemma {:induction false} InsertAtBounds(k: seq<int>, hs: seq<Hand>, key: Hand -> seq<int>)
    requires SortedBy(hs, key)
    ensures forall j | 0 <= j < InsertAt(k, hs, key) :: Lex(key(hs[j]), k) != Greater
    ensures forall j | InsertAt(k, hs, key) <= j < |hs| :: Lex(key(hs[j]), k) == Greater
  {
    if hs != [] && Lex(key(hs[0]), k) != Greater {
      var rest := hs[1..];
      assert SortedBy(rest, key) by {
        forall i, j | 0 <= i < j < |rest| ensures Lex(key(rest[i]), key(rest[j])) != Greater {
          assert rest[i] == hs[i + 1] && rest[j] == hs[j + 1];
        }
      }
      InsertAtBounds(k, rest, key);
      forall j | 1 <= j < |hs| ensures hs[j] == rest[j - 1] {
      }
    } else if hs != [] {
      forall j | 0 <= j < |hs| ensures Lex(key(hs[j]), k) == Greater {
        if j > 0 {
          LexAbove(k, key(hs[0]), key(hs[j]));
        }
      }
    }
  }

  /** If `b` is above `a` and `c` is not below `b`, then `c` is above `a`. */
  lemma LexAbove(a: seq<int>, b: seq<int>, c: seq<int>)
    requires Lex(b, a) == Greater && Lex(b, c) != Greater
    ensures Lex(c, a) == Greater
  {
    LexReverse(b, a);
    LexReverse(c, a);
    if Lex(c, a) != Greater {
      LexTransitive(b, c, a);
      LexEqual(b, a);
    }
  }

  /** A hand put where `InsertAt` says keeps the hands in order. */
  lemma InsertSorted(h: Hand, hs: seq<Hand>, key: Hand -> seq<int>)
    requires SortedBy(hs, key)
    ensures SortedBy(Insert(h, hs, key), key)
  {
    var k := key(h);
    var i := InsertAt(k, hs, key);
    InsertAtBounds(k, hs, key);
    var r := Insert(h, hs, key);
    forall a, b | 0 <= a < b < |r| ensures Lex(key(r[a]), key(r[b])) != Greater {
      if b == i {
        assert r[a] == hs[a];
      } else if a == i {
        assert r[b] == hs[b - 1];
        LexReverse(key(hs[b - 1]), k);
      } else if a < i < b {
        assert r[a] == hs[a] && r[b] == hs[b - 1];
        LexReverse(key(hs[b - 1]), k);
        LexTransitive(key(hs[a]), k, key(hs[b - 1]));
      } else {
        assert r[a] == hs[if a < i then a else a - 1];
        assert r[b] == hs[if b < i then b else b - 1];
      }
    }
  }

  lemma {:induction false} SortBySorted(hs: seq<Hand>, key: Hand -> seq<int>)
    ensures SortedBy(SortBy(hs, key), key)
  {
    if hs != [] {
      SortBySorted(hs[..|hs| - 1], key);
      InsertSorted(hs[|hs| - 1], SortBy(hs[..|hs| - 1], key), key);
    }
  }

  /** The sorted hands are the same hands, in the order `sort_cards`
      gives, and hands that compare equal keep their order. */
  lemma SortHandsSorted(hs: seq<Hand>)
    ensures multiset(SortHands(hs)) == multiset(hs)
    ensures Sorted(SortHands(hs))
    ensures forall k :: WithKey(SortHands(hs), Key, k) == WithKey(hs, Key, k)
  {
    var r := SortHands(hs);
    SortBySorted(hs, Key);
    forall i, j | 0 <= i < j < |r| ensures Compare(r[i], r[j]) != Greater {
      CompareByKey(r[i], r[j]);
    }
    forall k ensures WithKey(r, Key, k) == WithKey(hs, Key, k) {
      SortByStable(hs, Key, k);
    }
  }

  /** Two hands compare equal exactly when their keys are equal, so the
      classes of `WithKey` are the classes of hands that compare equal. */
  lemma CompareEqualKey(a: Hand, b: Hand)
    ensures Compare(a, b) == Equal <==> Key(a) == Key(b)
  {
    CompareByKey(a, b);
    LexEqual(Key(a), Key(b));
  }

  /** A sorted arrangement of the hands in which hands that compare equal
      keep their order is the one `SortHands` gives, so the winnings do not
      depend on how the sort is carried out. */
  lemma SortHandsUnique(hs: seq<Hand>, r: seq<Hand>)
    requires Sorted(r) && forall k :: WithKey(r, Key, k) == WithKey(hs, Key, k)
    ensures r == SortHands(hs)
    ensures Winnings(r) == Winnings(SortHands(hs))
  {
    var s := SortHands(hs);
    assert SortedBy(r, Key) by {
      forall i, j | 0 <= i < j < |r| ensures Lex(Key(r[i]), Key(r[j])) != Greater {
        CompareByKey(r[i], r[j]);
      }
    }
    SortBySorted(hs, Key);
    forall k ensures WithKey(r, Key, k) == WithKey(s, Key, k) {
      SortByStable(hs, Key, k);
    }
    StableUnique(r, s, Key);
  }

  // ---------------------------------------------------------------------
  // Stability

  /** The hands of `hs` whose key is `k`, in their order in `hs`. */
  function WithKey(hs: seq<Hand>, key: Hand -> seq<int>, k: seq<int>): seq<Hand> {
    if hs == [] then []
    else WithKey(hs[..|hs| - 1], key, k) + (if key(hs[|hs| - 1]) == k then [hs[|hs| - 1]] else [])
  }

  lemma {:induction false} WithKeyConcat(a: seq<Hand>, b: seq<Hand>, key: Hand -> seq<int>, k: seq<int>)
    ensures WithKey(a + b, key, k) == WithKey(a, key, k) + WithKey(b, key, k)
  {
    if b == [] {
      assert a + b == a;
    } else {
      var b' := b[..|b| - 1];
      assert (a + b)[..|a + b| - 1] == a + b';
      WithKeyConcat(a, b', key, k);
    }
  }

  /** No hand whose key is above `k` has key `k`. */
  lemma {:induction false} WithKeyAbove(hs: seq<Hand>, key: Hand -> seq<int>, k: seq<int>)
    requires forall j | 0 <= j < |hs| :: Lex(key(hs[j]), k) == Greater
    ensures WithKey(hs, key, k) == []
  {
    if hs != [] {
      LexEqual(k, k);
      WithKeyAbove(hs[..|hs| - 1], key, k);
    }
  }

  /** A class is non-empty exactly when some hand has that key. */
  lemma {:induction false} WithKeyHas(hs: seq<Hand>, key: Hand -> seq<int>, k: seq<int>)
    ensures WithKey(hs, key, k) != [] <==> exists j | 0 <= j < |hs| :: key(hs[j]) == k
  {
    if hs != [] {
      var init := hs[..|hs| - 1];
      WithKeyHas(init, key, k);
      if exists j | 0 <= j < |init| :: key(init[j]) == k {
        var j :| 0 <= j < |init| && key(init[j]) == k;
        assert key(hs[j]) == k;
      }
      if exists j | 0 <= j < |hs| :: key(hs[j]) == k {
        var j :| 0 <= j < |hs| && key(hs[j]) == k;
        if j < |init| {
          assert key(init[j]) == k;
        }
      }
    }
  }

  /** The class of the last hand holds it. */
  lemma WithKeyLast(hs: seq<Hand>, key: Hand -> seq<int>)
    requires hs != []
    ensures WithKey(hs, key, key(hs[|hs| - 1])) != []
  {
  }

  /** Inserting `h` into a sorted list puts it after every hand of its
      class and changes no other class. */
  lemma InsertStable(h: Hand, hs: seq<Hand>, key: Hand -> seq<int>, k: seq<int>)
    requires SortedBy(hs, key)
    ensures WithKey(Insert(h, hs, key), key, k) == WithKey(hs, key, k) + (if key(h) == k then [h] else [])
  {
    var i := InsertAt(key(h), hs, key);
    assert key(h) == k ==> WithKey(hs[i..], key, k) == [] by {
      if key(h) == k {
        InsertAtBounds(key(h), hs, key);
        WithKeyAbove(hs[i..], key, k);
      }
    }
    assert hs[..i] + hs[i..] == hs;
    InsertBetween(h, hs[..i], hs[i..], key, k);
  }

  /** A hand put between `pre` and `post`, where `post` holds none of its
      class, comes last in its class. */
  lemma InsertBetween(h: Hand, pre: seq<Hand>, post: seq<Hand>, key: Hand -> seq<int>, k: seq<int>)
    requires key(h) == k ==> WithKey(post, key, k) == []
    ensures WithKey(pre + [h] + post, key, k) == WithKey(pre + post, key, k) + (if key(h) == k then [h] else [])
  {
    var mid := if key(h) == k then [h] else [];
    assert WithKey(pre + [h], key, k) == WithKey(pre, key, k) + mid by {
      assert [h][..0] == [];
      WithKeyConcat(pre, [h], key, k);
    }
    assert WithKey(pre + post, key, k) == WithKey(pre, key, k) + WithKey(post, key, k) by {
      WithKeyConcat(pre, post, key, k);
    }
    assert WithKey(pre + [h] + post, key, k) == WithKey(pre + [h], key, k) + WithKey(post, key, k) by {
      WithKeyConcat(pre + [h], post, key, k);
    }
    if key(h) != k {
      assert mid == [];
    }
  }

  /** `SortBy` is stable: every class keeps its order. */
  lemma {:induction false} SortByStable(hs: seq<Hand>, key: Hand -> seq<int>, k: seq<int>)
    ensures WithKey(SortBy(hs, key), key, k) == WithKey(hs, key, k)
  {
    if hs != [] {
      var init := hs[..|hs| - 1];
      SortByStable(init, key, k);
      SortBySorted(init, key);
      InsertStable(hs[|hs| - 1], SortBy(init, key), key, k);
    }
  }

  /** Two sorted lists with the same classes, each in the same order, are
      equal. */
  lemma {:induction false} StableUnique(r: seq<Hand>, s: seq<Hand>, key: Hand -> seq<int>)
    requires SortedBy(r, key) && SortedBy(s, key)
    requires forall k :: WithKey(r, key, k) == WithKey(s, key, k)
    ensures r == s
    decreases |r| + |s|
  {
    assert r != [] ==> s != [] by {
      if r != [] {
        WithKeyLast(r, key);
        WithKeyHas(s, key, key(r[|r| - 1]));
      }
    }
    assert s != [] ==> r != [] by {
      if s != [] {
        WithKeyLast(s, key);
        WithKeyHas(r, key, key(s[|s| - 1]));
      }
    }
    if r != [] {
      var r', s' := r[..|r| - 1], s[..|s| - 1];
      var x, y := r[|r| - 1], s[|s| - 1];
      var kx, ky := key(x), key(y);
      LexEqual(kx, kx);
      LexEqual(ky, ky);
      assert Lex(kx, ky) != Greater by {
        assert WithKey(r, key, kx) != [];
        WithKeyHas(s, key, kx);
        var j :| 0 <= j < |s| && key(s[j]) == kx;
      }
      assert Lex(ky, kx) != Greater by {
        assert WithKey(s, key, ky) != [];
        WithKeyHas(r, key, ky);
        var j :| 0 <= j < |r| && key(r[j]) == ky;
      }
      assert kx == ky by {
        LexReverse(kx, ky);
        LexEqual(kx, ky);
      }
      assert x == y && WithKey(r', key, kx) == WithKey(s', key, kx) by {
        var p := WithKey(r, key, kx);
        assert p == WithKey(r', key, kx) + [x];
        assert p == WithKey(s', key, kx) + [y];
        assert p[|p| - 1] == x && p[|p| - 1] == y;
        assert p[..|p| - 1] == WithKey(r', key, kx) && p[..|p| - 1] == WithKey(s', key, kx);
      }
      forall k ensures WithKey(r', key, k) == WithKey(s', key, k) {
        if k != kx {
          assert WithKey(r, key, k) == WithKey(r', key, k);
          assert WithKey(s, key, k) == WithKey(s', key, k);
        }
      }
      StableUnique(r', s', key);
      assert r == r' + [x] && s == s' + [y];
    }
  }

  /** Every bet times its place in the list, counting from 1. */
  function Winnings(hs: seq<Hand>): nat {
    if hs == [] then 0 else Winnings(hs[..|hs| - 1]) + hs[|hs| - 1].bet * |hs|
  }

  /** Every hand switched to Joker mode. */
  function WithJokers(hs: seq<Hand>): (r: seq<Hand>)
    ensures |r| == |hs|
    ensures forall k | 0 <= k < |hs| :: r[k] == hs[k].(mode := Joker)
  {
    seq(|hs|, k requires 0 <= k < |hs| => hs[k].(mode := Joker))
  }

  function ParseHands(lines: seq<string>): Option<seq<Hand>> {
    AllSome(seq(|lines|, k requires 0 <= k < |lines| => ParseLine(lines[k])))
  }

  /** `exec`: the winnings of the hands sorted in Standard mode, then of the
      same list switched to Joker mode and sorted again. */
  function ExecOf(source: string): Option<(nat, nat)> {
    match ParseHands(Split(source, "\n"))
    case None => None
    case Some(hands) =>
      var first := SortHands(hands);
      var second := SortHands(WithJokers(first));
      Some((Winnings(first), Winnings(second)))
  }

  /** `exec`, switching the modes in place as the source does. */
  method Exec(source: string) returns (r: Option<(nat, nat)>)
    ensures r == ExecOf(source)
  {
    var parsed := ParseHands(Split(source, "\n"));
    if parsed.None? {
      return None;
    }
    var hands := SortHands(parsed.value);
    var part1 := Winnings(hands);
    hands := SetJokers(hands);
    hands := SortHands(hands);
    r := Some((part1, Winnings(hands)));
  }

  /** The `iter_mut` loop of `exec` that switches every hand to Joker
      mode. */
  method SetJokers(hands: seq<Hand>) returns (r: seq<Hand>)
    ensures r == WithJokers(hands)
  {
    r := hands;
    for k := 0 to |r|
      invariant |r| == |hands|
      invariant forall j | 0 <= j < k :: r[j] == hands[j].(mode := Joker)
      invariant forall j | k <= j < |r| :: r[j] == hands[j]
    {
      r := r[k := r[k].(mode := Joker)];
    }
  }

  // ---------------------------------------------------------------------
  // Examples

  /** The hands of the ranking test, one per kind: each is ranked by its
      kind, and only the values named below occur more than once. */
  lemma ExampleFive()
    ensures HandRank(Hand(Standard, [2, 2, 2, 2, 2], 1)) == 6
  {
    var h := Hand(Standard, [2, 2, 2, 2, 2], 1);
    StandardRank(h);
    MultOf5(h.cards, 2);
  }

  lemma ExampleFour()
    ensures HandRank(Hand(Standard, [2, 2, 3, 2, 2], 1)) == 5
  {
    var h := Hand(Standard, [2, 2, 3, 2, 2], 1);
    StandardRank(h);
    MultOf5(h.cards, 2);
    forall v ensures Mult(h.cards, v) <= 1 || v == 2 {
      MultOf5(h.cards, v);
    }
  }

  lemma ExampleFullHouse()
    ensures HandRank(Hand(Standard, [2, 13, 2, 2, 13], 1)) == 4
  {
    var h := Hand(Standard, [2, 13, 2, 2, 13], 1);
    StandardRank(h);
    MultOf5(h.cards, 2);
    MultOf5(h.cards, 13);
    forall v ensures Mult(h.cards, v) <= 1 || v == 2 || v == 13 {
      MultOf5(h.cards, v);
    }
  }

  lemma ExampleThree()
    ensures HandRank(Hand(Standard, [2, 2, 2, 13, 10], 1)) == 3
  {
    var h := Hand(Standard, [2, 2, 2, 13, 10], 1);
    var count1, best, count2, next := HandRankTop(h);
    MultOf5(h.cards, 1);
    MultOf5(h.cards, 2);
    forall v ensures Mult(h.cards, v) <= 1 || v == 2 {
      MultOf5(h.cards, v);
    }
    assert count1 == 3 && count2 == 1;
  }

  lemma ExampleTwoPairs()
    ensures HandRank(Hand(Standard, [2, 2, 7, 5, 5], 1)) == 2
  {
    var h := Hand(Standard, [2, 2, 7, 5, 5], 1);
    var count1, best, count2, next := HandRankTop(h);
    MultOf5(h.cards, 1);
    MultOf5(h.cards, 2);
    MultOf5(h.cards, 5);
    forall v ensures Mult(h.cards, v) <= 1 || v == 2 || v == 5 {
      MultOf5(h.cards, v);
    }
    assert count1 == 2 && count2 == 2;
  }

  lemma ExampleOnePair(h: Hand)
    requires h == Hand(Standard, [2, 2, 7, 5, 9], 1)
    ensures HandRank(h) == 1
  {
    var count1, best, count2, next := HandRankTop(h);
    MultOf5(h.cards, 1);
    MultOf5(h.cards, 2);
    MultOf5(h.cards, 7);
    forall v ensures Mult(h.cards, v) <= 1 || v == 2 {
      MultOf5(h.cards, v);
    }
    assert count1 == 2 && best == 2;
    assert count2 == 1;
  }

  lemma ExampleHighCard()
    ensures HandRank(Hand(Standard, [2, 10, 7, 5, 9], 1)) == 0
  {
    var h := Hand(Standard, [2, 10, 7, 5, 9], 1);
    StandardRank(h);
    forall v ensures Mult(h.cards, v) <= 1 {
      MultOf5(h.cards, v);
    }
  }

  /** When the jokers are themselves the largest group they join the second
      largest as written, so three jokers and a pair rank as three of a kind
      although they could make five of a kind. */
  lemma ExampleJokersOnTop()
    ensures HandRank(Hand(Joker, [11, 11, 11, 2, 2], 1)) == 3
  {
    var h := Hand(Joker, [11, 11, 11, 2, 2], 1);
    var cs := Cards(h);
    assert cs == [1, 1, 1, 2, 2];
    forall v ensures Mult(cs, v) == CountOf5(cs, v) {
      MultOf5(cs, v);
    }
    var count1, best, count2, next := HandRankTop(h);
    assert Mult(cs, 1) == 3 && Mult(cs, 2) == 2;
    assert best == 1 && next == 2;
  }

  /** A hand of five card characters, a space and a bet parses to the
      Standard hand of those cards' values with that bet. */
  lemma ParseFive(left: string, right: string, cards: seq<nat>, bet: nat)
    requires |left| == 5 && |cards| == 5 && ' ' !in left
    requires forall k | 0 <= k < 5 :: CardValue(left[k]) == Some(cards[k])
    requires ParseNat(right) == Some(bet)
    ensures ParseLine(left + " " + right) == Some(Hand(Standard, cards, bet))
  {
    SplitOnceAt(left, " ", right, 0);
    var xs := seq(|left|, k requires 0 <= k < |left| => CardValue(left[k]));
    AllSomeIs(xs, cards);
  }

  /** The bet of both parsing tests. */
  lemma Bet678()
    ensures ParseNat("678") == Some(678)
  {
    assert DigitsValue("678"[..1]) == 6;
    assert DigitsValue("678"[..2]) == 67;
  }

  /** The first parsing test: digits are worth themselves. */
  lemma ExampleParseDigits(line: string)
    requires line == "12345" + " " + "678"
    ensures ParseLine(line) == Some(Hand(Standard, [1, 2, 3, 4, 5], 678))
  {
    Bet678();
    ParseFive("12345", "678", [1, 2, 3, 4, 5], 678);
  }

  /** The second parsing test: faces are worth their table values. */
  lemma ExampleParseFaces(line: string)
    requires line == "TJA4K" + " " + "678"
    ensures ParseLine(line) == Some(Hand(Standard, [10, 11, 14, 4, 13], 678))
  {
    Bet678();
    ParseFive("TJA4K", "678", [10, 11, 14, 4, 13], 678);
  }

  /** A Standard hand of real cards with five of one value ranks 6. */
  lemma RankFiveOf(h: Hand, v: nat)
    requires h.mode == Standard && RealCards(h.cards) && Mult(h.cards, v) == 5
    ensures HandRank(h) == 6
  {
    StandardRank(h);
  }

  /** A Standard hand of real cards with four of one value ranks 5. */
  lemma RankFourOf(h: Hand, v: nat)
    requires h.mode == Standard && RealCards(h.cards) && Mult(h.cards, v) == 4
    ensures HandRank(h) == 5
  {
    StandardRank(h);
    forall u | u != v ensures Mult(h.cards, u) <= 1 {
      MultBound(h.cards, v, u);
    }
  }

  /** A Standard hand of real cards with three of one value and two of
      another ranks 4. */
  lemma RankFullHouseOf(h: Hand, v: nat, w: nat)
    requires h.mode == Standard && RealCards(h.cards) && Mult(h.cards, v) == 3 && Mult(h.cards, w) == 2
    ensures HandRank(h) == 4
  {
    StandardRank(h);
    forall u | u != v ensures Mult(h.cards, u) <= 2 {
      MultBound(h.cards, v, u);
    }
  }

  /** A Standard hand of real cards with two of one value and at most one
      of every other ranks 1. */
  lemma RankOnePairOf(h: Hand, v: nat)
    requires h.mode == Standard && RealCards(h.cards) && 2 <= v <= 14 && Mult(h.cards, v) == 2
    requires forall u | u != v :: Mult(h.cards, u) <= 1
    ensures HandRank(h) == 1
  {
    var count1, best, count2, next := HandRankTop(h);
    MultAbsent(h.cards, 1);
    assert Mult(h.cards, v) <= count1;
    assert count1 == 2 && count2 <= 1;
  }

  /** The hand at `i` has a key below the hand before it. */
  predicate DescendingAt(hs: seq<Hand>, key: Hand -> seq<int>, i: int)
    requires 0 < i < |hs|
  {
    Lex(key(hs[i - 1]), key(hs[i])) == Greater
  }

  /** Every hand has a key below the hand before it. */
  predicate Descending(hs: seq<Hand>, key: Hand -> seq<int>) {
    forall i | 0 < i < |hs| :: DescendingAt(hs, key, i)
  }

  /** A hand whose key is below the first hand's goes in front. */
  lemma InsertFront(h: Hand, s: seq<Hand>, key: Hand -> seq<int>)
    requires s != [] ==> Lex(key(s[0]), key(h)) == Greater
    ensures Insert(h, s, key) == [h] + s
  {
    assert InsertAt(key(h), s, key) == 0;
    assert s[..0] + [h] + s[0..] == [h] + s;
  }

  /** The hands in reverse order. */
  function Reversed(hs: seq<Hand>): (r: seq<Hand>)
    ensures |r| == |hs|
  {
    if hs == [] then [] else [hs[|hs| - 1]] + Reversed(hs[..|hs| - 1])
  }

  /** The `i`-th hand of the reversed list is the `i`-th from the end. */
  lemma {:induction false} ReversedAt(hs: seq<Hand>, i: nat)
    requires i < |hs|
    ensures Reversed(hs)[i] == hs[|hs| - 1 - i]
  {
    if i > 0 {
      ReversedAt(hs[..|hs| - 1], i - 1);
    }
  }

  /** Hands given in strictly descending order of key come out of the sort
      reversed. */
  lemma {:induction false} SortByDescending(hs: seq<Hand>, key: Hand -> seq<int>)
    requires Descending(hs, key)
    ensures SortBy(hs, key) == Reversed(hs)
  {
    if hs != [] {
      var init, h := hs[..|hs| - 1], hs[|hs| - 1];
      assert Descending(init, key) by {
        forall i | 0 < i < |init| ensures DescendingAt(init, key, i) {
          assert DescendingAt(hs, key, i);
        }
      }
      SortByDescending(init, key);
      var s := SortBy(init, key);
      assert s != [] ==> s[0] == hs[|hs| - 2] && DescendingAt(hs, key, |hs| - 1);
      InsertFront(h, s, key);
    }
  }

  // The ranks of the hands of the sorting test, whatever their bets.

  lemma SortTestRank1(b: nat)
    ensures HandRank(Hand(Standard, [13, 13, 13, 13, 13], b)) == 6
    ensures Key(Hand(Standard, [13, 13, 13, 13, 13], b)) == [6, 13, 13, 13, 13, 13]
  {
    var h := Hand(Standard, [13, 13, 13, 13, 13], b);
    MultOf5(h.cards, 13);
    RankFiveOf(h, 13);
  }

  lemma SortTestRank2(b: nat)
    ensures HandRank(Hand(Standard, [12, 12, 12, 12, 12], b)) == 6
    ensures Key(Hand(Standard, [12, 12, 12, 12, 12], b)) == [6, 12, 12, 12, 12, 12]
  {
    var h := Hand(Standard, [12, 12, 12, 12, 12], b);
    MultOf5(h.cards, 12);
    RankFiveOf(h, 12);
  }

  lemma SortTestRank3(b: nat)
    ensures HandRank(Hand(Standard, [3, 3, 3, 3, 12], b)) == 5
    ensures Key(Hand(Standard, [3, 3, 3, 3, 12], b)) == [5, 3, 3, 3, 3, 12]
  {
    var h := Hand(Standard, [3, 3, 3, 3, 12], b);
    MultOf5(h.cards, 3);
    RankFourOf(h, 3);
  }

  lemma SortTestRank4(b: nat)
    ensures HandRank(Hand(Standard, [13, 13, 12, 12, 12], b)) == 4
    ensures Key(Hand(Standard, [13, 13, 12, 12, 12], b)) == [4, 13, 13, 12, 12, 12]
  {
    var h := Hand(Standard, [13, 13, 12, 12, 12], b);
    MultOf5(h.cards, 12);
    MultOf5(h.cards, 13);
    RankFullHouseOf(h, 12, 13);
  }

  lemma SortTestRank5(b: nat)
    ensures HandRank(Hand(Standard, [11, 11, 11, 10, 10], b)) == 4
    ensures Key(Hand(Standard, [11, 11, 11, 10, 10], b)) == [4, 11, 11, 11, 10, 10]
  {
    var h := Hand(Standard, [11, 11, 11, 10, 10], b);
    MultOf5(h.cards, 11);
    MultOf5(h.cards, 10);
    RankFullHouseOf(h, 11, 10);
  }

  lemma SortTestRank6(b: nat)
    ensures HandRank(Hand(Standard, [3, 3, 3, 2, 2], b)) == 4
    ensures Key(Hand(Standard, [3, 3, 3, 2, 2], b)) == [4, 3, 3, 3, 2, 2]
  {
    var h := Hand(Standard, [3, 3, 3, 2, 2], b);
    MultOf5(h.cards, 3);
    MultOf5(h.cards, 2);
    RankFullHouseOf(h, 3, 2);
  }

  lemma SortTestRank7(b: nat)
    ensures HandRank(Hand(Standard, [12, 12, 8, 7, 5], b)) == 1
    ensures Key(Hand(Standard, [12, 12, 8, 7, 5], b)) == [1, 12, 12, 8, 7, 5]
  {
    var h := Hand(Standard, [12, 12, 8, 7, 5], b);
    MultOf5(h.cards, 12);
    forall u | u != 12 ensures Mult(h.cards, u) <= 1 {
      MultOf5(h.cards, u);
    }
    RankOnePairOf(h, 12);
  }

  /** Seven hands each stronger than the next are in descending order. */
  lemma DescendingSeven(h0: Hand, h1: Hand, h2: Hand, h3: Hand, h4: Hand, h5: Hand, h6: Hand,
                        key: Hand -> seq<int>)
    requires Lex(key(h0), key(h1)) == Greater && Lex(key(h1), key(h2)) == Greater
    requires Lex(key(h2), key(h3)) == Greater && Lex(key(h3), key(h4)) == Greater
    requires Lex(key(h4), key(h5)) == Greater && Lex(key(h5), key(h6)) == Greater
    ensures Descending([h0, h1, h2, h3, h4, h5, h6], key)
  {
    var hs := [h0, h1, h2, h3, h4, h5, h6];
    forall i | 0 < i < |hs| ensures DescendingAt(hs, key, i) {
    }
  }

  /** The keys of the sorting test, compared neighbour by neighbour. */
  lemma SortTestKeys()
    ensures Lex([6, 13, 13, 13, 13, 13], [6, 12, 12, 12, 12, 12]) == Greater
    ensures Lex([6, 12, 12, 12, 12, 12], [5, 3, 3, 3, 3, 12]) == Greater
    ensures Lex([5, 3, 3, 3, 3, 12], [4, 13, 13, 12, 12, 12]) == Greater
    ensures Lex([4, 13, 13, 12, 12, 12], [4, 11, 11, 11, 10, 10]) == Greater
    ensures Lex([4, 11, 11, 11, 10, 10], [4, 3, 3, 3, 2, 2]) == Greater
    ensures Lex([4, 3, 3, 3, 2, 2], [1, 12, 12, 8, 7, 5]) == Greater
  {
  }

  /** The seven hands of the sorting test, whatever their bets, are given
      from the strongest down. */
  lemma SortTestDescending(b1: nat, b2: nat, b3: nat, b4: nat, b5: nat, b6: nat, b7: nat)
    ensures Descending([Hand(Standard, [13, 13, 13, 13, 13], b1),
      Hand(Standard, [12, 12, 12, 12, 12], b2),
      Hand(Standard, [3, 3, 3, 3, 12], b3),
      Hand(Standard, [13, 13, 12, 12, 12], b4),
      Hand(Standard, [11, 11, 11, 10, 10], b5),
      Hand(Standard, [3, 3, 3, 2, 2], b6),
      Hand(Standard, [12, 12, 8, 7, 5], b7)], Key)
  {
    SortTestRank1(b1);
    SortTestRank2(b2);
    SortTestRank3(b3);
    SortTestRank4(b4);
    SortTestRank5(b5);
    SortTestRank6(b6);
    SortTestRank7(b7);
    SortTestKeys();
    DescendingSeven(Hand(Standard, [13, 13, 13, 13, 13], b1),
      Hand(Standard, [12, 12, 12, 12, 12], b2),
      Hand(Standard, [3, 3, 3, 3, 12], b3),
      Hand(Standard, [13, 13, 12, 12, 12], b4),
      Hand(Standard, [11, 11, 11, 10, 10], b5),
      Hand(Standard, [3, 3, 3, 2, 2], b6),
      Hand(Standard, [12, 12, 8, 7, 5], b7), Key);
  }

  /** The sorting test: sorting the seven hands puts the weakest first, so
      the bets come out in the reverse of the order given (bets 1 to 7 in
      the test read 7 down to 1). */
  lemma ExampleSortHands(b1: nat, b2: nat, b3: nat, b4: nat, b5: nat, b6: nat, b7: nat)
    ensures var r := SortHands([Hand(Standard, [13, 13, 13, 13, 13], b1),
      Hand(Standard, [12, 12, 12, 12, 12], b2),
      Hand(Standard, [3, 3, 3, 3, 12], b3),
      Hand(Standard, [13, 13, 12, 12, 12], b4),
      Hand(Standard, [11, 11, 11, 10, 10], b5),
      Hand(Standard, [3, 3, 3, 2, 2], b6),
      Hand(Standard, [12, 12, 8, 7, 5], b7)]);
      |r| == 7 && r[0].bet == b7 && r[1].bet == b6 && r[2].bet == b5 && r[3].bet == b4 &&
      r[4].bet == b3 && r[5].bet == b2 && r[6].bet == b1
  {
    var hs := [Hand(Standard, [13, 13, 13, 13, 13], b1),
      Hand(Standard, [12, 12, 12, 12, 12], b2),
      Hand(Standard, [3, 3, 3, 3, 12], b3),
      Hand(Standard, [13, 13, 12, 12, 12], b4),
      Hand(Standard, [11, 11, 11, 10, 10], b5),
      Hand(Standard, [3, 3, 3, 2, 2], b6),
      Hand(Standard, [12, 12, 8, 7, 5], b7)];
    SortTestDescending(b1, b2, b3, b4, b5, b6, b7);
    SortByDescending(hs, Key);
    ReversedAt(hs, 0);
    ReversedAt(hs, 1);
    ReversedAt(hs, 2);
    ReversedAt(hs, 3);
    ReversedAt(hs, 4);
    ReversedAt(hs, 5);
    ReversedAt(hs, 6);
  }

  function CountOf5(cs: seq<nat>, v: int): nat
    requires |cs| == 5
  {
    (if cs[0] == v then 1 else 0) + (if cs[1] == v then 1 else 0) + (if cs[2] == v then 1 else 0) +
    (if cs[3] == v then 1 else 0) + (if cs[4] == v then 1 else 0)
  }

  /** The count of a value among five cards, written out. */
  lemma MultOf5(cs: seq<nat>, v: int)
    requires |cs| == 5
    ensures Mult(cs, v) == CountOf5(cs, v)
  {
    assert Mult(cs[..1], v) == (if cs[0] == v then 1 else 0) by {
      assert cs[..1][..0] == [];
    }
    assert Mult(cs[..2], v) == Mult(cs[..1], v) + (if cs[1] == v then 1 else 0) by {
      assert cs[..2][..1] == cs[..1];
    }
    assert Mult(cs[..3], v) == Mult(cs[..2], v) + (if cs[2] == v then 1 else 0) by {
      assert cs[..3][..2] == cs[..2];
    }
    assert Mult(cs[..4], v) == Mult(cs[..3], v) + (if cs[3] == v then 1 else 0) by {
      assert cs[..4][..3] == cs[..3];
    }
    assert cs[..5] == cs;
  }
}
