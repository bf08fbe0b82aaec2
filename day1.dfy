/** Calibration values: each line's value is its first digit followed by its
    last digit, where the first part counts only the digits `1`..`9` and the
    second part also the spelled-out words `one`..`nine`. */
module Day1 {
  import opened Common

  /** The digit strings, the values of the word-to-digit map. */
  const Digits: seq<string> := ["1", "2", "3", "4", "5", "6", "7", "8", "9"]
  /** The spelled-out digits, the keys of that map. */
  const Words: seq<string> := ["one", "two", "three", "four", "five", "six", "seven", "eight", "nine"]

  /** The word-to-digit map. */
  const DigitMap: map<string, string> :=
    map["one" := "1", "two" := "2", "three" := "3", "four" := "4", "five" := "5",
        "six" := "6", "seven" := "7", "eight" := "8", "nine" := "9"]

  /** Every string either part searches for, digits first. */
  const Patterns: seq<string> := Digits + Words

  predicate IsPattern(p: string) {
    PatternIndex(p, 0) < |Patterns|
  }

  /** Where `p` is in `Patterns`, searching from `k`. */
  function PatternIndex(p: string, k: nat): (r: nat)
    requires k <= |Patterns|
    ensures k <= r <= |Patterns|
    ensures r < |Patterns| ==> Patterns[r] == p
    ensures r == |Patterns| ==> forall m | k <= m < |Patterns| :: Patterns[m] != p
    decreases |Patterns| - k
  {
    if k == |Patterns| then k
    else if Patterns[k] == p then k
    else PatternIndex(p, k + 1)
  }

  lemma PatternCases(p: string)
    ensures IsPattern(p) <==> p in Digits || p in Words
  {
    if p in Digits || p in Words {
      assert p in Patterns;
    }
  }

  /** `parse_digit`: a word becomes its digit, anything else stays. */
  function ParseDigit(item: string): (d: string)
    ensures item in Words ==> d == Digits[IndexOfWord(item)]
    ensures item !in Words ==> d == item
  {
    if item in DigitMap then DigitMap[item] else item
  }

  function IndexOfWord(w: string): (k: nat)
    requires w in Words
    ensures k < 9 && Words[k] == w
  {
    if w == "one" then 0 else if w == "two" then 1 else if w == "three" then 2
    else if w == "four" then 3 else if w == "five" then 4 else if w == "six" then 5
    else if w == "seven" then 6 else if w == "eight" then 7 else 8
  }

  /** Every pattern stands for one of the digits `1`..`9`. */
  lemma ParseDigitIsDigit(p: string)
    requires IsPattern(p)
    ensures ParseDigit(p) in Digits
    ensures |ParseDigit(p)| == 1 && IsDigit(ParseDigit(p)[0]) && 1 <= DigitValue(ParseDigit(p)[0]) <= 9
  {
    var d := ParseDigit(p);
    PatternCases(p);
    assert d in Digits by {
      if p in Words {
        assert d == Digits[IndexOfWord(p)];
      }
    }
    DigitShape(d);
  }

  /** No two patterns begin at the same place in a line: they differ in
      their first character or, for words, in their first two. So the order
      in which the patterns are tried, which follows the hash map's, cannot
      matter. */
  lemma OnePatternAt(line: string, p: string, q: string, i: int)
    requires IsPattern(p) && IsPattern(q)
    requires OccursAt(line, p, i) && OccursAt(line, q, i)
    ensures p == q
  {
    assert line[i..i + |p|][0] == p[0] && line[i..i + |q|][0] == q[0];
    if |p| > 1 && |q| > 1 {
      assert line[i..i + |p|][1] == p[1] && line[i..i + |q|][1] == q[1];
      WordsByPrefix(p, q);
    } else {
      DigitsByFirst(p, q);
    }
  }

  lemma WordsByPrefix(p: string, q: string)
    requires IsPattern(p) && IsPattern(q) && |p| > 1 && |q| > 1
    requires p[0] == q[0] && p[1] == q[1]
    ensures p == q
  {
    PatternCases(p);
    PatternCases(q);
    if p in Digits {
      DigitShape(p);
    }
    if q in Digits {
      DigitShape(q);
    }
    WordShape(p);
    WordShape(q);
  }

  lemma DigitsByFirst(p: string, q: string)
    requires IsPattern(p) && IsPattern(q) && (|p| == 1 || |q| == 1)
    requires p[0] == q[0]
    ensures p == q
  {
    PatternCases(p);
    PatternCases(q);
    if p in Words {
      WordShape(p);
    } else {
      DigitShape(p);
    }
    if q in Words {
      WordShape(q);
    } else {
      DigitShape(q);
    }
    assert p == [p[0]] && q == [q[0]];
  }

  /** A digit pattern is one of the characters `1`..`9`. */
  lemma DigitShape(d: string)
    requires d in Digits
    ensures d == [d[0]] && '1' <= d[0] <= '9' && ParseDigit(d) == d
  {
  }

  /** A word is at least three letters long, starts with a non-digit, and
      is the only word with its first two letters. */
  lemma WordShape(w: string)
    requires w in Words
    ensures |w| >= 3 && !('1' <= w[0] <= '9')
    ensures WordDigit(w[0], w[1]) == ParseDigit(w)
    ensures WordOf(w[0], w[1]) == w
  {
    var k := IndexOfWord(w);
    if k == 0 {
    } else if k == 1 {
    } else if k == 2 {
    } else if k == 3 {
    } else if k == 4 {
    } else if k == 5 {
    } else if k == 6 {
    } else if k == 7 {
    } else {
    }
  }

  /** The word with first two letters `a`, `b` (empty if there is none). */
  function WordOf(a: char, b: char): string {
    if a == 'o' && b == 'n' then "one"
    else if a == 't' && b == 'w' then "two"
    else if a == 't' && b == 'h' then "three"
    else if a == 'f' && b == 'o' then "four"
    else if a == 'f' && b == 'i' then "five"
    else if a == 's' && b == 'i' then "six"
    else if a == 's' && b == 'e' then "seven"
    else if a == 'e' && b == 'i' then "eight"
    else if a == 'n' && b == 'i' then "nine"
    else ""
  }

  // ---------------------------------------------------------------------
  // Where the patterns occur

  /** Some pattern of `pats` begins at `i`. */
  predicate AnyAt(line: string, pats: seq<string>, i: int) {
    AnyBelow(line, pats, |pats|, i)
  }

  /** Some pattern of `pats` before index `k` begins at `i`. */
  predicate AnyBelow(line: string, pats: seq<string>, k: nat, i: int) {
    exists j | 0 <= j < k && j < |pats| :: OccursAt(line, pats[j], i)
  }

  /** Trying the pattern at index `k` adds its occurrences. */
  lemma AnyBelowStep(line: string, pats: seq<string>, k: nat, i: int)
    requires k < |pats|
    ensures AnyBelow(line, pats, k + 1, i) <==> AnyBelow(line, pats, k, i) || OccursAt(line, pats[k], i)
  {
    if AnyBelow(line, pats, k + 1, i) && !OccursAt(line, pats[k], i) {
      var j :| 0 <= j < k + 1 && j < |pats| && OccursAt(line, pats[j], i);
      assert j < k;
    }
  }

  /** The first position at or after `from` where some pattern begins. */
  function FirstFrom(line: string, pats: seq<string>, from: nat): Option<nat>
    decreases |line| + 1 - from
  {
    if from > |line| then None
    else if AnyAt(line, pats, from) then Some(from)
    else FirstFrom(line, pats, from + 1)
  }

  /** `FirstFrom` finds the first position, if there is one. */
  lemma {:induction false} FirstFromIsFirst(line: string, pats: seq<string>, from: nat)
    ensures var r := FirstFrom(line, pats, from);
      (r.Some? ==> from <= r.value && AnyAt(line, pats, r.value)) &&
      (r.Some? ==> forall j | from <= j < r.value :: !AnyAt(line, pats, j)) &&
      (r.None? ==> forall j | from <= j :: !AnyAt(line, pats, j))
    decreases |line| + 1 - from
  {
    if from <= |line| && !AnyAt(line, pats, from) {
      FirstFromIsFirst(line, pats, from + 1);
    }
  }

  /** The last position at or before `upto` where some pattern begins. */
  function LastUpTo(line: string, pats: seq<string>, upto: int): Option<nat>
    decreases upto + 1
  {
    if upto < 0 then None
    else if AnyAt(line, pats, upto) then Some(upto)
    else LastUpTo(line, pats, upto - 1)
  }

  /** `LastUpTo` finds the last position, if there is one. */
  lemma {:induction false} LastUpToIsLast(line: string, pats: seq<string>, upto: int)
    ensures var r := LastUpTo(line, pats, upto);
      (r.Some? ==> r.value <= upto && AnyAt(line, pats, r.value)) &&
      (r.Some? ==> forall j | r.value < j <= upto :: !AnyAt(line, pats, j)) &&
      (r.None? ==> forall j | j <= upto :: !AnyAt(line, pats, j))
    decreases upto + 1
  {
    if upto >= 0 && !AnyAt(line, pats, upto) {
      LastUpToIsLast(line, pats, upto - 1);
    }
  }

  lemma NoneBeyondEnd(line: string, pats: seq<string>, j: int)
    requires forall k | 0 <= k < |pats| :: |pats[k]| > 0
    requires j >= |line|
    ensures !AnyAt(line, pats, j)
  {
  }

  /** The digit of the pattern that begins at `i`, read off the characters
      there: a digit stands for itself, a word is known by its first two
      letters (empty if no pattern begins at `i`). */
  function DigitAt(line: string, i: nat): (d: string) {
    if i >= |line| then ""
    else if '1' <= line[i] <= '9' then [line[i]]
    else if i + 1 >= |line| then ""
    else WordDigit(line[i], line[i + 1])
  }

  function WordDigit(a: char, b: char): string {
    if a == 'o' && b == 'n' then "1"
    else if a == 't' && b == 'w' then "2"
    else if a == 't' && b == 'h' then "3"
    else if a == 'f' && b == 'o' then "4"
    else if a == 'f' && b == 'i' then "5"
    else if a == 's' && b == 'i' then "6"
    else if a == 's' && b == 'e' then "7"
    else if a == 'e' && b == 'i' then "8"
    else if a == 'n' && b == 'i' then "9"
    else ""
  }

  /** Whichever pattern begins at `i`, `DigitAt` is its digit. */
  lemma DigitAtIs(line: string, p: string, i: nat)
    requires IsPattern(p) && OccursAt(line, p, i)
    ensures DigitAt(line, i) == ParseDigit(p)
  {
    assert line[i..i + |p|] == p;
    assert line[i] == p[0];
    if |p| > 1 {
      assert line[i + 1] == p[1];
      WordDigitOf(p);
    } else {
      DigitOf(p);
    }
  }

  lemma WordDigitOf(p: string)
    requires IsPattern(p) && |p| > 1
    ensures !('1' <= p[0] <= '9') && WordDigit(p[0], p[1]) == ParseDigit(p)
  {
    PatternCases(p);
    if p in Digits {
      DigitShape(p);
    }
    WordShape(p);
  }

  lemma DigitOf(p: string)
    requires IsPattern(p) && |p| <= 1
    ensures '1' <= p[0] <= '9' && [p[0]] == ParseDigit(p)
  {
    PatternCases(p);
    if p in Words {
      WordShape(p);
    }
    DigitShape(p);
  }

  predicate AllPatterns(pats: seq<string>) {
    forall k | 0 <= k < |pats| :: IsPattern(pats[k])
  }

  /** The first-digit string the source builds: the digit of the earliest
      pattern, unless that is not before position 999 (the starting value of
      the running minimum), in which case it stays empty. */
  function FirstDigit(line: string, pats: seq<string>): string
  {
    match FirstFrom(line, pats, 0)
    case None => ""
    case Some(i) => if i < 999 then DigitAt(line, i) else ""
  }

  /** The last-digit string: the digit of the latest pattern. */
  function LastDigit(line: string, pats: seq<string>): string
  {
    match LastUpTo(line, pats, |line|)
    case None => ""
    case Some(i) => DigitAt(line, i)
  }

  /** A line's calibration value: the two strings joined and parsed as a
      number; `None` (a failed parse) when no pattern occurs. */
  function LineValue(line: string, pats: seq<string>): Option<nat>
  {
    ParseNat(FirstDigit(line, pats) + LastDigit(line, pats))
  }

  /** After trying the patterns before index `k`: `minIndex`/`minDigit` hold the
      earliest occurrence before 999 (or 999 and nothing), `maxIndex`/
      `maxDigit` the latest occurrence (or nothing). */
  ghost predicate MinState(line: string, pats: seq<string>, k: nat, minIndex: nat, minDigit: string) {
    minIndex <= 999 &&
    (minIndex < 999 ==> AnyBelow(line, pats, k, minIndex) && minDigit == DigitAt(line, minIndex)) &&
    (minIndex == 999 ==> minDigit == "") &&
    (forall i | AnyBelow(line, pats, k, i) :: minIndex <= i)
  }

  ghost predicate MaxState(line: string, pats: seq<string>, k: nat, maxIndex: nat, maxDigit: string) {
    (maxDigit != "" ==> AnyBelow(line, pats, k, maxIndex) && maxDigit == DigitAt(line, maxIndex) &&
                        forall i | AnyBelow(line, pats, k, i) :: i <= maxIndex) &&
    (maxDigit == "" ==> maxIndex == 0 && forall i :: !AnyBelow(line, pats, k, i))
  }

  /** One pattern's `find`: an occurrence strictly before the running
      minimum replaces it, with the pattern's digit. */
  method UpdateMin(line: string, toFind: seq<string>, k: nat, minIndex: nat, minDigit: string)
    returns (minIndex': nat, minDigit': string)
    requires k < |toFind| && IsPattern(toFind[k]) && MinState(line, toFind, k, minIndex, minDigit)
    ensures MinState(line, toFind, k + 1, minIndex', minDigit')
  {
    var test := toFind[k];
    ghost var next := k + 1;
    forall i ensures AnyBelow(line, toFind, next, i) <==> AnyBelow(line, toFind, k, i) || OccursAt(line, test, i) {
      AnyBelowStep(line, toFind, k, i);
    }
    minIndex', minDigit' := minIndex, minDigit;
    match Find(line, test) {
      case None =>
      case Some(index) =>
        if index < minIndex {
          DigitAtIs(line, test, index);
          minIndex', minDigit' := index, ParseDigit(test);
        }
    }
  }

  /** One pattern's `rfind`: an occurrence at or after the running maximum
      replaces it, with the pattern's digit. */
  method UpdateMax(line: string, toFind: seq<string>, k: nat, maxIndex: nat, maxDigit: string)
    returns (maxIndex': nat, maxDigit': string)
    requires k < |toFind| && IsPattern(toFind[k]) && MaxState(line, toFind, k, maxIndex, maxDigit)
    ensures MaxState(line, toFind, k + 1, maxIndex', maxDigit')
  {
    var test := toFind[k];
    ghost var next := k + 1;
    forall i ensures AnyBelow(line, toFind, next, i) <==> AnyBelow(line, toFind, k, i) || OccursAt(line, test, i) {
      AnyBelowStep(line, toFind, k, i);
    }
    ParseDigitIsDigit(test);
    maxIndex', maxDigit' := maxIndex, maxDigit;
    match RFind(line, test) {
      case None =>
      case Some(index) =>
        if index >= maxIndex {
          DigitAtIs(line, test, index);
          maxIndex', maxDigit' := index, ParseDigit(test);
        }
    }
  }

  /** The final state gives the first- and last-digit strings. */
  lemma MinFinal(line: string, pats: seq<string>, minIndex: nat, minDigit: string)
    requires AllPatterns(pats) && MinState(line, pats, |pats|, minIndex, minDigit)
    ensures minDigit == FirstDigit(line, pats)
  {
    forall k | 0 <= k < |pats| ensures |pats[k]| > 0 {
      ParseDigitIsDigit(pats[k]);
    }
    var f := FirstFrom(line, pats, 0);
    FirstFromIsFirst(line, pats, 0);
    if minIndex < 999 {
      assert AnyAt(line, pats, minIndex);
      assert f == Some(minIndex);
    }
  }

  lemma MaxFinal(line: string, pats: seq<string>, maxIndex: nat, maxDigit: string)
    requires AllPatterns(pats) && MaxState(line, pats, |pats|, maxIndex, maxDigit)
    ensures maxDigit == LastDigit(line, pats)
  {
    var l := LastUpTo(line, pats, |line|);
    LastUpToIsLast(line, pats, |line|);
    if maxDigit != "" {
      assert AnyAt(line, pats, maxIndex);
      var k :| 0 <= k < |pats| && OccursAt(line, pats[k], maxIndex);
      assert maxIndex <= |line|;
      assert l.Some? && AnyAt(line, pats, l.value);
      assert l.value == maxIndex;
    } else {
      assert l.None?;
    }
  }

  /** `parse_line`: tries every pattern in turn, keeping the earliest first
      occurrence (strictly earlier, starting from 999) and the latest last
      occurrence (at least as late, starting from 0). */
  method ParseLine(line: string, toFind: seq<string>) returns (value: Option<nat>)
    requires AllPatterns(toFind)
    ensures value == LineValue(line, toFind)
  {
    var minIndex, minDigit, maxIndex, maxDigit := SearchAll(line, toFind);
    MinFinal(line, toFind, minIndex, minDigit);
    MaxFinal(line, toFind, maxIndex, maxDigit);
    value := ParseNat(minDigit + maxDigit);
  }

  /** The loop of `parse_line` over the patterns, from the running minimum
      999 and the running maximum 0, both with empty digit strings. */
  method SearchAll(line: string, toFind: seq<string>)
    returns (minIndex: nat, minDigit: string, maxIndex: nat, maxDigit: string)
    requires AllPatterns(toFind)
    ensures MinState(line, toFind, |toFind|, minIndex, minDigit)
    ensures MaxState(line, toFind, |toFind|, maxIndex, maxDigit)
  {
    minIndex, maxIndex := 999, 0;
    minDigit, maxDigit := "", "";
    for k := 0 to |toFind|
      invariant MinState(line, toFind, k, minIndex, minDigit)
      invariant MaxState(line, toFind, k, maxIndex, maxDigit)
    {
      minIndex, minDigit := UpdateMin(line, toFind, k, minIndex, minDigit);
      maxIndex, maxDigit := UpdateMax(line, toFind, k, maxIndex, maxDigit);
    }
  }

  // ---------------------------------------------------------------------
  // What the value is

  /** The digit value of the pattern that begins at `i`. */
  ghost function DigitValueAt(line: string, i: nat): nat {
    var d := DigitAt(line, i);
    if |d| == 1 && IsDigit(d[0]) then DigitValue(d[0]) else 0
  }

  /** Parsing one digit, or two digits written one after the other. */
  lemma ParseDigits(a: string, b: string)
    requires |a| == 1 && IsDigit(a[0]) && |b| == 1 && IsDigit(b[0])
    ensures ParseNat(a + b) == Some(10 * DigitValue(a[0]) + DigitValue(b[0]))
    ensures ParseNat("" + b) == Some(DigitValue(b[0]))
  {
    var s := [a[0], b[0]];
    assert a + b == s && AllDigits(s);
    assert s[..1] == [a[0]] && [a[0]][..0] == [];
    assert DigitsValue([a[0]]) == DigitValue(a[0]);
    assert DigitsValue(s) == 10 * DigitsValue(s[..1]) + DigitValue(b[0]);
    assert "" + b == b && b == [b[0]] && [b[0]][..0] == [];
    assert DigitsValue([b[0]]) == DigitValue(b[0]);
  }

  /** The calibration value is ten times the first digit plus the last; a
      line with no digit at all has none; and when the first digit comes only
      at position 999 or later, only the last digit is left. */
  lemma CalibrationValue(line: string, pats: seq<string>)
    requires AllPatterns(pats)
    ensures FirstFrom(line, pats, 0).None? <==> LineValue(line, pats).None?
    ensures FirstFrom(line, pats, 0).Some? ==>
      var first := FirstFrom(line, pats, 0).value;
      LastUpTo(line, pats, |line|).Some? &&
      var last := LastUpTo(line, pats, |line|).value;
      first <= last &&
      LineValue(line, pats) == Some(if first < 999 then 10 * DigitValueAt(line, first) + DigitValueAt(line, last)
                                    else DigitValueAt(line, last))
  {
    FirstAndLast(line, pats);
    var first, last := FirstFrom(line, pats, 0), LastUpTo(line, pats, |line|);
    if first.Some? {
      var value := if first.value < 999 then 10 * DigitValueAt(line, first.value) + DigitValueAt(line, last.value)
                   else DigitValueAt(line, last.value);
      assert LineValue(line, pats) == Some(value) by {
        ValueOfDigits(line, pats, first.value, last.value);
      }
    } else {
      assert LineValue(line, pats).None? by {
        NoValue(line, pats);
      }
    }
  }

  lemma NoValue(line: string, pats: seq<string>)
    requires FirstFrom(line, pats, 0).None? && LastUpTo(line, pats, |line|).None?
    ensures LineValue(line, pats).None?
  {
    assert FirstDigit(line, pats) + LastDigit(line, pats) == "";
  }

  lemma ValueOfDigits(line: string, pats: seq<string>, first: nat, last: nat)
    requires FirstFrom(line, pats, 0) == Some(first) && LastUpTo(line, pats, |line|) == Some(last)
    requires IsDigitString(DigitAt(line, first)) && IsDigitString(DigitAt(line, last))
    ensures LineValue(line, pats) == Some(if first < 999 then 10 * DigitValueAt(line, first) + DigitValueAt(line, last)
                                          else DigitValueAt(line, last))
  {
    var a, b := DigitAt(line, first), DigitAt(line, last);
    assert LastDigit(line, pats) == b;
    assert FirstDigit(line, pats) == if first < 999 then a else "";
    TwoDigits(a, b, first < 999);
  }

  lemma TwoDigits(a: string, b: string, both: bool)
    requires IsDigitString(a) && IsDigitString(b)
    ensures ParseNat((if both then a else "") + b) ==
      Some(if both then 10 * DigitValue(a[0]) + DigitValue(b[0]) else DigitValue(b[0]))
  {
    ParseDigits(a, b);
  }

  predicate IsDigitString(d: string) {
    |d| == 1 && IsDigit(d[0])
  }

  /** The first and the last occurrence exist together, come in that order,
      and each stands for a single digit. */
  lemma FirstAndLast(line: string, pats: seq<string>)
    requires AllPatterns(pats)
    ensures FirstFrom(line, pats, 0).None? <==> LastUpTo(line, pats, |line|).None?
    ensures FirstFrom(line, pats, 0).Some? ==>
      var first, last := FirstFrom(line, pats, 0).value, LastUpTo(line, pats, |line|).value;
      first <= last && IsDigitString(DigitAt(line, first)) && IsDigitString(DigitAt(line, last))
  {
    var f, l := FirstFrom(line, pats, 0), LastUpTo(line, pats, |line|);
    FirstFromIsFirst(line, pats, 0);
    LastUpToIsLast(line, pats, |line|);
    if f.Some? {
      var first := f.value;
      var k :| 0 <= k < |pats| && OccursAt(line, pats[k], first);
      assert l.Some?;
      var m :| 0 <= m < |pats| && OccursAt(line, pats[m], l.value);
      DigitIsSingle(line, pats[k], first);
      DigitIsSingle(line, pats[m], l.value);
    }
  }

  lemma DigitIsSingle(line: string, p: string, i: nat)
    requires IsPattern(p) && OccursAt(line, p, i)
    ensures IsDigitString(DigitAt(line, i))
  {
    ParseDigitIsDigit(p);
    DigitAtIs(line, p, i);
  }

  /** Which patterns each part searches: the digits, and for the second part
      the words as well; any other part aborts. */
  function ToFind(part: int): (r: Option<seq<string>>)
    ensures r.Some? <==> part == 1 || part == 2
    ensures r.Some? ==> AllPatterns(r.value)
    ensures r.Some? ==> forall p :: p in r.value <==> p in Digits || (part == 2 && p in Words)
  {
    PartsArePatterns();
    if part == 1 then Some(Digits)
    else if part == 2 then Some(Digits + Words)
    else None
  }

  lemma PartsArePatterns()
    ensures AllPatterns(Digits) && AllPatterns(Patterns)
  {
    forall k | 0 <= k < |Patterns| ensures IsPattern(Patterns[k]) {
      PatternCases(Patterns[k]);
    }
    forall k | 0 <= k < |Digits| ensures IsPattern(Digits[k]) {
      PatternCases(Digits[k]);
    }
  }

  /** The sum of the values; `None` as soon as one is missing. */
  function SumOf(values: seq<Option<nat>>): Option<int>
  {
    if values == [] then Some(0)
    else
      var init, last := SumOf(values[..|values| - 1]), values[|values| - 1];
      if init.Some? && last.Some? then Some(init.value + last.value) else None
  }

  /** The sum exists exactly when every value does. */
  lemma {:induction false} SumOfPresent(values: seq<Option<nat>>)
    ensures SumOf(values).Some? <==> forall i | 0 <= i < |values| :: values[i].Some?
  {
    if values != [] {
      var init := values[..|values| - 1];
      SumOfPresent(init);
      assert forall i | 0 <= i < |init| :: init[i] == values[i];
    }
  }

  /** The value of every line. */
  function LineValues(lines: seq<string>, pats: seq<string>): (vs: seq<Option<nat>>)
    ensures |vs| == |lines|
    ensures forall i {:trigger LineValue(lines[i], pats)} | 0 <= i < |lines| :: vs[i] == LineValue(lines[i], pats)
  {
    seq(|lines|, i requires 0 <= i < |lines| => LineValue(lines[i], pats))
  }

  /** `exec`: sums the values of the lines for the chosen part. */
  method Exec(source: string, part: int) returns (r: Option<int>)
    ensures (part != 1 && part != 2) ==> r.None?
    ensures (part == 1 || part == 2) ==> r == SumOf(LineValues(Split(source, "\n"), ToFind(part).value))
  {
    var toFind := ToFind(part);
    if toFind.None? {
      return None;
    }
    r := SumLines(Split(source, "\n"), toFind.value);
  }

  method SumLines(lines: seq<string>, pats: seq<string>) returns (r: Option<int>)
    requires AllPatterns(pats)
    ensures r == SumOf(LineValues(lines, pats))
  {
    ghost var values := LineValues(lines, pats);
    r := SumValues(lines, pats, values);
  }

  /** The summing loop, over the lines' values. */
  method SumValues(lines: seq<string>, pats: seq<string>, ghost values: seq<Option<nat>>) returns (r: Option<int>)
    requires AllPatterns(pats) && |values| == |lines|
    requires forall i {:trigger LineValue(lines[i], pats)} | 0 <= i < |lines| :: values[i] == LineValue(lines[i], pats)
    ensures r == SumOf(values)
  {
    var total := 0;
    assert values[..0] == [];
    for i := 0 to |lines|
      invariant SumOf(values[..i]) == Some(total)
    {
      assert values[i] == LineValue(lines[i], pats);
      var value := AddLine(lines, pats, values, i, total);
      if value.None? {
        return None;
      }
      total := total + value.value;
    }
    assert values[..|lines|] == values;
    return Some(total);
  }

  /** One turn of the summing loop: the line's value, and what it does to
      the running sum. */
  method AddLine(lines: seq<string>, pats: seq<string>, ghost values: seq<Option<nat>>, i: nat, total: int)
    returns (value: Option<nat>)
    requires AllPatterns(pats) && i < |lines| == |values| && values[i] == LineValue(lines[i], pats)
    requires SumOf(values[..i]) == Some(total)
    ensures value.Some? ==> SumOf(values[..i + 1]) == Some(total + value.value)
    ensures value.None? ==> SumOf(values).None?
  {
    value := ParseLine(lines[i], pats);
    SumStep(values, i, total, value);
  }

  /** One step of the running sum: a missing value ends it for good. */
  lemma SumStep(values: seq<Option<nat>>, i: nat, total: int, value: Option<nat>)
    requires i < |values| && values[i] == value && SumOf(values[..i]) == Some(total)
    ensures value.Some? ==> SumOf(values[..i + 1]) == Some(total + value.value)
    ensures value.None? ==> SumOf(values).None?
  {
    assert values[..i + 1] == values[..i] + [value];
    SumOfSnoc(values[..i], value);
    if value.None? {
      SumOfNoneStays(values[..i + 1], values);
    }
  }

  lemma SumOfSnoc(values: seq<Option<nat>>, v: Option<nat>)
    ensures SumOf(values + [v]) == if SumOf(values).Some? && v.Some? then Some(SumOf(values).value + v.value) else None
  {
    assert (values + [v])[..|values|] == values;
  }

  /** A missing value stays missing in any longer list. */
  lemma SumOfNoneStays(values: seq<Option<nat>>, all: seq<Option<nat>>)
    requires |values| <= |all| && forall k | 0 <= k < |values| :: values[k] == all[k]
    requires SumOf(values).None?
    ensures SumOf(all).None?
  {
    SumOfPresent(values);
    SumOfPresent(all);
    var k :| 0 <= k < |values| && values[k].None?;
    assert all[k].None?;
  }

  /** A line that is a single digit counts it twice. */
  lemma ExampleSingleDigit()
    ensures LineValue("1", Digits + Words) == Some(11)
  {
    var pats := Digits + Words;
    assert pats[0] == "1";
    assert OccursAt("1", pats[0], 0);
    assert FirstFrom("1", pats, 0) == Some(0);
    forall k | 0 <= k < |pats| ensures |pats[k]| > 0 {
      ParseDigitIsDigit(pats[k]);
    }
    NoneBeyondEnd("1", pats, 1);
    assert LastUpTo("1", pats, 1) == Some(0);
    DigitAtIs("1", "1", 0);
    ParseDigits("1", "1");
  }

  /** No pattern begins where `DigitAt` reads nothing. */
  lemma PatternHasDigit(line: string, p: string, i: nat)
    requires IsPattern(p)
    ensures OccursAt(line, p, i) ==> DigitAt(line, i) != ""
  {
    if OccursAt(line, p, i) {
      DigitIsSingle(line, p, i);
    }
  }

  lemma NoPatternAt(line: string, pats: seq<string>, i: nat)
    requires AllPatterns(pats) && DigitAt(line, i) == ""
    ensures !AnyAt(line, pats, i)
  {
    forall k | 0 <= k < |pats| ensures OccursAt(line, pats[k], i) ==> DigitAt(line, i) != "" {
      PatternHasDigit(line, pats[k], i);
    }
  }

  /** Positions where no pattern begins do not change the first occurrence. */
  lemma {:induction false} FirstFromSkip(line: string, pats: seq<string>, from: nat, stop: nat)
    requires from <= stop <= |line| + 1
    requires forall j | from <= j < stop :: !AnyAt(line, pats, j)
    ensures FirstFrom(line, pats, from) == FirstFrom(line, pats, stop)
    decreases stop - from
  {
    if from < stop {
      FirstFromSkip(line, pats, from + 1, stop);
    }
  }

  /** Positions where no pattern begins do not change the last occurrence. */
  lemma {:induction false} LastUpToSkip(line: string, pats: seq<string>, upto: int, stop: int)
    requires stop <= upto
    requires forall j | stop < j <= upto :: !AnyAt(line, pats, j)
    ensures LastUpTo(line, pats, upto) == LastUpTo(line, pats, stop)
    decreases upto - stop
  {
    if stop < upto {
      LastUpToSkip(line, pats, upto - 1, stop);
    }
  }

  /** A pattern with nothing readable before it is the first occurrence. */
  lemma FirstAt(line: string, pats: seq<string>, i: nat)
    requires AllPatterns(pats) && i <= |line| && AnyAt(line, pats, i)
    requires forall j | 0 <= j < i :: DigitAt(line, j) == ""
    ensures FirstFrom(line, pats, 0) == Some(i)
  {
    forall j | 0 <= j < i ensures !AnyAt(line, pats, j) {
      NoPatternAt(line, pats, j);
    }
    FirstFromSkip(line, pats, 0, i);
  }

  /** A pattern with nothing readable after it is the last occurrence. */
  lemma LastAt(line: string, pats: seq<string>, i: nat)
    requires AllPatterns(pats) && i <= |line| && AnyAt(line, pats, i)
    requires forall j | i < j < |line| :: DigitAt(line, j) == ""
    ensures LastUpTo(line, pats, |line|) == Some(i)
  {
    forall j | i < j <= |line| ensures !AnyAt(line, pats, j) {
      NoPatternAt(line, pats, j);
    }
    LastUpToSkip(line, pats, |line|, i);
  }

  /** The value of a line whose first and last digits are known. */
  lemma ValueAt(line: string, pats: seq<string>, first: nat, last: nat, a: nat, b: nat)
    requires AllPatterns(pats) && first < 999
    requires FirstFrom(line, pats, 0) == Some(first) && DigitValueAt(line, first) == a
    requires LastUpTo(line, pats, |line|) == Some(last) && DigitValueAt(line, last) == b
    ensures LineValue(line, pats) == Some(10 * a + b)
  {
    FirstAndLast(line, pats);
    ValueOfDigits(line, pats, first, last);
  }

  /** The first line test of the second part: the word "eight" comes first
      and the digit 7 last. */
  lemma ExampleWordsAndDigits(line: string)
    requires line == "eightone7threenl7mtxbmkpkzqzljrdk"
    ensures LineValue(line, Digits + Words) == Some(87)
  {
    var pats := Digits + Words;
    assert AllPatterns(pats) by {
      PartsArePatterns();
    }
    EightAndSeven(line, pats);
    FirstAt(line, pats, 0);
    LastAt(line, pats, 16);
    ValueAt(line, pats, 0, 16, 8, 7);
  }

  lemma EightAndSeven(line: string, pats: seq<string>)
    requires line == "eightone7threenl7mtxbmkpkzqzljrdk" && pats == Digits + Words
    ensures AnyAt(line, pats, 0) && DigitValueAt(line, 0) == 8
    ensures AnyAt(line, pats, 16) && DigitValueAt(line, 16) == 7
    ensures forall j | 16 < j < |line| :: DigitAt(line, j) == ""
  {
    assert pats[16] == "eight" && line[..5] == pats[16];
    assert OccursAt(line, pats[16], 0);
    assert pats[6] == "7" && line[16..17] == [line[16]];
    assert OccursAt(line, pats[6], 16);
    assert DigitAt(line, 0) == "8" && DigitAt(line, 16) == "7";
    forall j | 16 < j < |line| ensures DigitAt(line, j) == "" {
      QuietTail(line, j);
    }
  }

  /** After its last 7 the line has no digit and no word. */
  lemma QuietTail(line: string, j: nat)
    requires line == "eightone7threenl7mtxbmkpkzqzljrdk" && 16 < j
    ensures DigitAt(line, j) == ""
  {
    var tail := line[17..];
    assert tail == "mtxbmkpkzqzljrdk";
    if j + 1 < |line| {
      assert line[j] == tail[j - 17] && line[j + 1] == tail[j - 16];
    }
  }

  /** The second line test of the second part: the only digit is the 5 at
      the end, which is both the first and the last digit. */
  lemma ExampleLoneDigit(line: string)
    requires line == "hzgrkrbmjmzhpfkfgg5"
    ensures LineValue(line, Digits + Words) == Some(55)
  {
    var pats := Digits + Words;
    assert AllPatterns(pats) by {
      PartsArePatterns();
    }
    LoneFive(line, pats);
    FirstAt(line, pats, 18);
    LastAt(line, pats, 18);
    ValueAt(line, pats, 18, 18, 5, 5);
  }

  lemma LoneFive(line: string, pats: seq<string>)
    requires line == "hzgrkrbmjmzhpfkfgg5" && pats == Digits + Words
    ensures |line| == 19 && AnyAt(line, pats, 18) && DigitValueAt(line, 18) == 5
    ensures forall j | 0 <= j < 18 :: DigitAt(line, j) == ""
  {
    assert pats[4] == "5" && line[18..19] == [line[18]];
    assert OccursAt(line, pats[4], 18);
    assert DigitAt(line, 18) == "5";
  }
}
