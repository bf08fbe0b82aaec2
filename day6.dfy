/** Boat races: holding the button for `x` of the race's `time` milliseconds
    gives speed `x`, so the boat covers `(time - x) * x`; a hold wins when
    that beats the record `distance`. */
module Day6 {

  /** The four races of the first part, as (time, record distance). */
  const Races: seq<(nat, nat)> := [(54, 239), (70, 1142), (82, 1295), (75, 1253)]

  predicate Beats(time: nat, distance: nat, x: nat) {
    x < time && (time - x) * x > distance
  }

  /** Every button hold that beats the record. */
  ghost function WinningHolds(time: nat, distance: nat): set<nat> {
    set x: nat | x < time && Beats(time, distance, x)
  }

  /** Counts the holds `x` in `0..time` that beat the record. */
  method EvaluateOptions(time: nat, distance: nat) returns (result: nat)
    ensures result == |WinningHolds(time, distance)|
  {
    result := 0;
    ghost var counted: set<nat> := {};
    for x := 0 to time
      invariant counted == set y: nat | y < x && Beats(time, distance, y)
      invariant result == |counted|
    {
      if (time - x) * x > distance {
        assert x !in counted;
        counted := counted + {x};
        result := result + 1;
      }
      assert counted == set y: nat | y < x + 1 && Beats(time, distance, y);
    }
    assert counted == WinningHolds(time, distance);
  }

  /** At most one winning hold per millisecond, and none in a race of no time. */
  lemma WinningHoldsBound(time: nat, distance: nat)
    ensures |WinningHolds(time, distance)| <= time
    ensures time == 0 ==> |WinningHolds(time, distance)| == 0
  {
    CountBeatsIsCardinality(time, distance, time);
    CountBeatsBound(time, distance, time);
  }

  lemma {:induction false} CountBeatsBound(time: nat, distance: nat, n: nat)
    ensures CountBeats(time, distance, n) <= n
  {
    if n > 0 { CountBeatsBound(time, distance, n - 1); }
  }

  /** Holding for `x` and for `time - x` cover the same distance, so the
      winning holds are symmetric; holding for 0 never wins. */
  lemma WinningHoldsSymmetric(time: nat, distance: nat, x: nat)
    requires x <= time
    ensures x in WinningHolds(time, distance) <==> (0 < x && time - x in WinningHolds(time, distance))
  {
    var y := time - x;
    assert (time - y) * y == (time - x) * x;
  }

  /** Number of holds below `n` that beat the record, counted one by one. */
  function CountBeats(time: nat, distance: nat, n: nat): nat {
    if n == 0 then 0
    else CountBeats(time, distance, n - 1) + (if Beats(time, distance, n - 1) then 1 else 0)
  }

  lemma {:induction false} CountBeatsIsCardinality(time: nat, distance: nat, n: nat)
    requires n <= time
    ensures CountBeats(time, distance, n) == |set x: nat | x < n && Beats(time, distance, x)|
  {
    if n > 0 {
      CountBeatsIsCardinality(time, distance, n - 1);
      var below := set x: nat | x < n - 1 && Beats(time, distance, x);
      if Beats(time, distance, n - 1) {
        assert (set x: nat | x < n && Beats(time, distance, x)) == below + {n - 1};
      } else {
        assert (set x: nat | x < n && Beats(time, distance, x)) == below;
      }
    }
  }

  /** The worked examples of the puzzle. */
  lemma ExampleRaces()
    ensures |WinningHolds(7, 9)| == 4
    ensures |WinningHolds(15, 40)| == 8
    ensures |WinningHolds(30, 200)| == 9
  {
    ExampleShortRace();
    ExampleMiddleRace();
    ExampleLongRace();
  }

  lemma ExampleShortRace()
    ensures |WinningHolds(7, 9)| == 4
  {
    CountBeatsIsCardinality(7, 9, 7);
    assert CountBeats(7, 9, 7) == 4;
  }

  lemma ExampleMiddleRace()
    ensures |WinningHolds(15, 40)| == 8
  {
    CountBeatsIsCardinality(15, 40, 15);
    assert CountBeats(15, 40, 5) == 1;
    assert CountBeats(15, 40, 10) == 6;
    assert CountBeats(15, 40, 15) == 8;
  }

  lemma ExampleLongRace()
    ensures |WinningHolds(30, 200)| == 9
  {
    CountBeatsIsCardinality(30, 200, 30);
    assert CountBeats(30, 200, 4) == 0;
    assert CountBeats(30, 200, 8) == 0;
    assert CountBeats(30, 200, 12) == 1;
    assert CountBeats(30, 200, 16) == 5;
    assert CountBeats(30, 200, 20) == 9;
    assert CountBeats(30, 200, 24) == 9;
    assert CountBeats(30, 200, 27) == 9;
    assert CountBeats(30, 200, 30) == 9;
  }

  /** Both answers: the product over the four races, and the single long race. */
  method Exec() returns (part1: nat, part2: nat)
    ensures part1 == Product(Races)
    ensures part2 == |WinningHolds(54708275, 239114212951253)|
  {
    part1 := 1;
    for i := 0 to |Races|
      invariant part1 == Product(Races[..i])
    {
      var options := EvaluateOptions(Races[i].0, Races[i].1);
      assert Races[..i + 1] == Races[..i] + [Races[i]];
      part1 := part1 * options;
    }
    assert Races[..|Races|] == Races;
    part2 := EvaluateOptions(54708275, 239114212951253);
  }

  ghost function Product(races: seq<(nat, nat)>): nat {
    if races == [] then 1
    else Product(races[..|races| - 1]) * |WinningHolds(races[|races| - 1].0, races[|races| - 1].1)|
  }
}
