/** Text and number helpers shared by the puzzle solvers: the parts of Rust's
    `str` and integer API that the solvers rely on (`split`, `split_once`,
    `split_whitespace`, `trim`, `find`, `rfind`, `parse`), stated over
    `seq<char>` with unbounded integers.  A `None` result stands for a
    panicking `unwrap`: the run aborts. */
module Common {

  datatype Option<+T> = None | Some(value: T)

  // ---------------------------------------------------------------------
  // Characters

  predicate IsDigit(c: char) { '0' <= c <= '9' }

  function DigitValue(c: char): (d: nat)
    requires IsDigit(c)
    ensures d < 10
  {
    (c as int) - ('0' as int)
  }

  /** Unicode's White_Space property, which `char::is_whitespace` tests and
      so `split_whitespace` and `trim` use. */
  predicate IsWhitespace(c: char) {
    || '\U{0009}' <= c <= '\U{000D}' || c == ' ' || c == '\U{0085}' || c == '\U{00A0}'
    || c == '\U{1680}' || '\U{2000}' <= c <= '\U{200A}' || c == '\U{2028}' || c == '\U{2029}'
    || c == '\U{202F}' || c == '\U{205F}' || c == '\U{3000}'
  }

  predicate AllDigits(s: string) {
    forall i | 0 <= i < |s| :: IsDigit(s[i])
  }

  // ---------------------------------------------------------------------
  // Numbers

  /** The decimal value of a string of digits, most significant first. */
  function DigitsValue(s: string): nat
    requires AllDigits(s)
  {
    if s == [] then 0 else 10 * DigitsValue(s[..|s| - 1]) + DigitValue(s[|s| - 1])
  }

  /** Rust's `str::parse::<usize>()`: an optional `+` followed by at least
      one decimal digit; anything else is an error. */
  function ParseNat(s: string): (r: Option<nat>)
    ensures r.Some? <==> (|s| > 0 && AllDigits(s)) || (|s| > 1 && s[0] == '+' && AllDigits(s[1..]))
    ensures |s| > 0 && AllDigits(s) ==> r == Some(DigitsValue(s))
  {
    if |s| > 0 && AllDigits(s) then Some(DigitsValue(s))
    else if |s| > 1 && s[0] == '+' && AllDigits(s[1..]) then Some(DigitsValue(s[1..]))
    else None
  }

  /** Rust's `str::parse::<isize>()`: like `ParseNat`, but a leading `-`
      negates the value. */
  function ParseInt(s: string): (r: Option<int>)
    ensures |s| > 1 && s[0] == '-' ==> (r.Some? <==> AllDigits(s[1..]))
    ensures |s| > 1 && s[0] == '-' && AllDigits(s[1..]) ==> r == Some(0 - DigitsValue(s[1..]))
    ensures (|s| == 0 || s[0] != '-') ==> r == (match ParseNat(s) case Some(n) => Some(n as int) case None => None)
  {
    if |s| > 1 && s[0] == '-' then
      (if AllDigits(s[1..]) then Some(0 - DigitsValue(s[1..])) else None)
    else
      match ParseNat(s)
      case Some(n) => Some(n as int)
      case None => None
  }

  /** Parses every element, failing as soon as one element fails. */
  function ParseNats(items: seq<string>): (r: Option<seq<nat>>)
    ensures r.Some? <==> forall i | 0 <= i < |items| :: ParseNat(items[i]).Some?
    ensures r.Some? ==> |r.value| == |items| && forall i | 0 <= i < |items| :: Some(r.value[i]) == ParseNat(items[i])
  {
    if items == [] then Some([])
    else
      var head, tail := ParseNat(items[0]), ParseNats(items[1..]);
      if head.Some? && tail.Some? then Some([head.value] + tail.value) else None
  }

  /** Like `ParseNats`, for signed integers. */
  function ParseInts(items: seq<string>): (r: Option<seq<int>>)
    ensures r.Some? <==> forall i | 0 <= i < |items| :: ParseInt(items[i]).Some?
    ensures r.Some? ==> |r.value| == |items| && forall i | 0 <= i < |items| :: Some(r.value[i]) == ParseInt(items[i])
  {
    if items == [] then Some([])
    else
      var head, tail := ParseInt(items[0]), ParseInts(items[1..]);
      if head.Some? && tail.Some? then Some([head.value] + tail.value) else None
  }

  /** A prefix one longer is the prefix with the next element appended. */
  lemma PrefixSnoc<T>(s: seq<T>, i: nat)
    requires i < |s|
    ensures s[..i + 1] == s[..i] + [s[i]]
  {
  }

  function Sum(s: seq<int>): int {
    if s == [] then 0 else Sum(s[..|s| - 1]) + s[|s| - 1]
  }

  lemma {:induction false} SumConcat(a: seq<int>, b: seq<int>)
    ensures Sum(a + b) == Sum(a) + Sum(b)
  {
    if b == [] {
      assert a + b == a;
    } else {
      assert (a + b)[..|a + b| - 1] == a + b[..|b| - 1];
      SumConcat(a, b[..|b| - 1]);
    }
  }

  /** Collecting a list of optional values: all of them, in order, or
      `None` as soon as one is missing (a panicking `unwrap` inside a `map`
      followed by `collect`). */
  function AllSome<T>(xs: seq<Option<T>>): (r: Option<seq<T>>)
    ensures r.Some? <==> forall k | 0 <= k < |xs| :: xs[k].Some?
    ensures r.Some? ==> |r.value| == |xs| && forall k | 0 <= k < |xs| :: xs[k] == Some(r.value[k])
  {
    if xs == [] then Some([])
    else
      var init, last := AllSome(xs[..|xs| - 1]), xs[|xs| - 1];
      assert forall k | 0 <= k < |xs| - 1 :: xs[..|xs| - 1][k] == xs[k];
      if init.Some? && last.Some? then Some(init.value + [last.value]) else None
  }

  /** `AllSome` is pinned down by the values it collects. */
  lemma AllSomeIs<T>(xs: seq<Option<T>>, vs: seq<T>)
    requires |xs| == |vs| && forall k | 0 <= k < |xs| :: xs[k] == Some(vs[k])
    ensures AllSome(xs) == Some(vs)
  {
    var r := AllSome(xs);
    assert r.Some?;
    assert forall k | 0 <= k < |xs| :: r.value[k] == vs[k];
    assert r.value == vs;
  }

  // ---------------------------------------------------------------------
  // Searching

  predicate OccursAt(s: string, pat: string, i: int) {
    0 <= i && i + |pat| <= |s| && s[i..i + |pat|] == pat
  }

  predicate Contains(s: string, pat: string) {
    exists i | 0 <= i <= |s| :: OccursAt(s, pat, i)
  }

  /** First occurrence of `pat` in `s` at or after `from`. */
  function FindFrom(s: string, pat: string, from: nat): (r: Option<nat>)
    requires from <= |s| + 1
    ensures r.Some? ==> from <= r.value && OccursAt(s, pat, r.value)
    ensures r.Some? ==> forall j | from <= j < r.value :: !OccursAt(s, pat, j)
    ensures r.None? ==> forall j | from <= j :: !OccursAt(s, pat, j)
    decreases |s| + 1 - from
  {
    if from + |pat| > |s| then None
    else if s[from..from + |pat|] == pat then Some(from)
    else FindFrom(s, pat, from + 1)
  }

  /** Rust's `str::find`: the index of the first occurrence. */
  function Find(s: string, pat: string): (r: Option<nat>)
    ensures r.Some? ==> OccursAt(s, pat, r.value) && forall j | 0 <= j < r.value :: !OccursAt(s, pat, j)
    ensures r.None? ==> forall j :: !OccursAt(s, pat, j)
  {
    FindFrom(s, pat, 0)
  }

  /** Last occurrence of `pat` in `s` starting at or before `upto`. */
  function RFindUpTo(s: string, pat: string, upto: int): (r: Option<nat>)
    ensures r.Some? ==> r.value <= upto && OccursAt(s, pat, r.value)
    ensures r.Some? ==> forall j | r.value < j <= upto :: !OccursAt(s, pat, j)
    ensures r.None? ==> forall j | j <= upto :: !OccursAt(s, pat, j)
    decreases upto + 1
  {
    if upto < 0 then None
    else if OccursAt(s, pat, upto) then Some(upto)
    else RFindUpTo(s, pat, upto - 1)
  }

  /** Rust's `str::rfind`: the index of the last occurrence. */
  function RFind(s: string, pat: string): (r: Option<nat>)
    ensures r.Some? ==> OccursAt(s, pat, r.value) && forall j | r.value < j :: !OccursAt(s, pat, j)
    ensures r.None? ==> forall j :: !OccursAt(s, pat, j)
  {
    RFindUpTo(s, pat, |s| - |pat|)
  }

  // ---------------------------------------------------------------------
  // Splitting

  function Join(parts: seq<string>, sep: string): string {
    if parts == [] then []
    else if |parts| == 1 then parts[0]
    else parts[0] + sep + Join(parts[1..], sep)
  }

  /** Rust's `str::split` with a non-empty pattern: the pieces between the
      non-overlapping occurrences of `sep`, found left to right.  There is
      always at least one piece, and joining the pieces with `sep` gives the
      input back. */
  function Split(s: string, sep: string): (r: seq<string>)
    requires |sep| > 0
    ensures |r| >= 1
    ensures Join(r, sep) == s
    ensures forall k | 0 <= k < |r| :: !Contains(r[k], sep)
    decreases |s|
  {
    match Find(s, sep)
    case None =>
      assert !Contains(s, sep);
      [s]
    case Some(i) =>
      var rest := Split(s[i + |sep|..], sep);
      assert s == s[..i] + sep + s[i + |sep|..];
      assert !Contains(s[..i], sep) by {
        forall j | 0 <= j <= i && OccursAt(s[..i], sep, j) ensures false {
          assert s[j..j + |sep|] == s[..i][j..j + |sep|];
          assert OccursAt(s, sep, j);
        }
      }
      [s[..i]] + rest
  }

  /** Rust's `str::split_once`: the parts before and after the first
      occurrence of `sep`, if there is one. */
  function SplitOnce(s: string, sep: string): (r: Option<(string, string)>)
    ensures r.None? <==> Find(s, sep).None?
    ensures r.Some? ==> Find(s, sep) == Some(|r.value.0|) && s == r.value.0 + sep + r.value.1
  {
    match Find(s, sep)
    case None => None
    case Some(i) =>
      assert s == s[..i] + sep + s[i + |sep|..];
      Some((s[..i], s[i + |sep|..]))
  }

  /** `Find` is pinned down by a first occurrence. */
  lemma FindAt(s: string, pat: string, i: nat)
    requires OccursAt(s, pat, i)
    requires forall j | 0 <= j < i :: !OccursAt(s, pat, j)
    ensures Find(s, pat) == Some(i)
  {
    var r := Find(s, pat);
    assert r.Some?;
  }

  /** A one-character pattern occurs exactly where that character does. */
  lemma OccursAtChar(s: string, c: char, i: nat)
    ensures OccursAt(s, [c], i) <==> i < |s| && s[i] == c
  {
    if i < |s| {
      assert s[i..i + 1] == [s[i]];
    }
  }

  lemma NoCharOccurs(s: string, c: char)
    requires forall i | 0 <= i < |s| :: s[i] != c
    ensures !Contains(s, [c]) && Find(s, [c]) == None
  {
    forall i: nat ensures !OccursAt(s, [c], i) {
      OccursAtChar(s, c, i);
    }
  }

  /** `Find` is pinned down by an occurrence before which the first
      character of the pattern does not appear. */
  lemma FindAtFirstChar(s: string, pat: string, i: nat)
    requires |pat| > 0 && OccursAt(s, pat, i)
    requires forall j | 0 <= j < i :: s[j] != pat[0]
    ensures Find(s, pat) == Some(i)
  {
    forall j | 0 <= j < i ensures !OccursAt(s, pat, j) {
      if OccursAt(s, pat, j) {
        OccursAtFirst(s, pat, j);
      }
    }
    FindAt(s, pat, i);
  }

  /** A pattern whose first character does not appear does not occur. */
  lemma NoFirstChar(s: string, pat: string)
    requires |pat| > 0 && forall j | 0 <= j < |s| :: s[j] != pat[0]
    ensures Find(s, pat) == None
  {
    forall j | 0 <= j ensures !OccursAt(s, pat, j) {
      if OccursAt(s, pat, j) {
        OccursAtFirst(s, pat, j);
      }
    }
  }

  lemma OccursAtFirst(s: string, pat: string, j: int)
    requires |pat| > 0 && OccursAt(s, pat, j)
    ensures s[j] == pat[0]
  {
    assert s[j..j + |pat|][0] == s[j];
  }

  /** Splitting a string in which the separator does not occur. */
  lemma SplitNone(s: string, sep: string)
    requires |sep| > 0 && Find(s, sep) == None
    ensures Split(s, sep) == [s]
  {
  }

  /** Splitting at the first occurrence of the separator. */
  lemma SplitFirst(s: string, sep: string, i: nat)
    requires |sep| > 0 && Find(s, sep) == Some(i)
    ensures Split(s, sep) == [s[..i]] + Split(s[i + |sep|..], sep)
    ensures SplitOnce(s, sep) == Some((s[..i], s[i + |sep|..]))
  {
  }

  /** Splitting on a character at its first occurrence. */
  lemma SplitAtChar(a: string, c: char, b: string)
    requires forall j | 0 <= j < |a| :: a[j] != c
    ensures Split(a + [c] + b, [c]) == [a] + Split(b, [c])
  {
    var s := a + [c] + b;
    assert s[|a|..|a| + 1] == [c];
    forall j | 0 <= j < |a| ensures s[j] != [c][0] {
      assert s[j] == a[j];
    }
    FindAtFirstChar(s, [c], |a|);
    SplitFirst(s, [c], |a|);
    assert s[..|a|] == a && s[|a| + 1..] == b;
  }

  /** Splitting once at a separator that holds a character `sep[k]` no
      other position of it holds, when the text before does not hold it. */
  lemma SplitOnceAt(a: string, sep: string, b: string, k: nat)
    requires k < |sep| && forall i | 0 <= i < |sep| && i != k :: sep[i] != sep[k]
    requires forall j | 0 <= j < |a| :: a[j] != sep[k]
    ensures SplitOnce(a + sep + b, sep) == Some((a, b))
  {
    var s := a + sep + b;
    assert s[|a|..|a| + |sep|] == sep;
    forall j | 0 <= j < |a| ensures !OccursAt(s, sep, j) {
      if j + k < |a| {
        assert s[j + k] == a[j + k];
      } else {
        assert s[j + k] == sep[j + k - |a|];
      }
      assert s[j..j + |sep|][k] != sep[k];
    }
    FindAt(s, sep, |a|);
    assert s[..|a|] == a && s[|a| + |sep|..] == b;
  }

  /** Splitting at a separator that holds a character `sep[k]` no other
      position of it holds, when the text before does not hold it: the text
      before is the first piece. */
  lemma SplitAt(a: string, sep: string, b: string, k: nat)
    requires k < |sep| && forall i | 0 <= i < |sep| && i != k :: sep[i] != sep[k]
    requires forall j | 0 <= j < |a| :: a[j] != sep[k]
    ensures Split(a + sep + b, sep) == [a] + Split(b, sep)
  {
    var s := a + sep + b;
    SplitOnceAt(a, sep, b, k);
    SplitFirst(s, sep, |a|);
    assert s[..|a|] == a && s[|a| + |sep|..] == b;
  }

  /** Splitting a text that lacks the separator's first character. */
  lemma SplitNoFirst(a: string, sep: string)
    requires |sep| > 0 && forall j | 0 <= j < |a| :: a[j] != sep[0]
    ensures Split(a, sep) == [a]
  {
    NoFirstChar(a, sep);
    SplitNone(a, sep);
  }

  /** Pieces that lack the separator's first character, joined by the
      separator, split back into those pieces. */
  lemma {:induction false} SplitJoin(parts: seq<string>, sep: string)
    requires |parts| > 0 && |sep| > 0
    requires forall i | 0 < i < |sep| :: sep[i] != sep[0]
    requires forall y, j | 0 <= y < |parts| && 0 <= j < |parts[y]| :: parts[y][j] != sep[0]
    ensures Split(Join(parts, sep), sep) == parts
  {
    if |parts| == 1 {
      SplitNoFirst(parts[0], sep);
    } else {
      SplitJoin(parts[1..], sep);
      SplitAt(parts[0], sep, Join(parts[1..], sep), 0);
      assert parts == [parts[0]] + parts[1..];
    }
  }

  /** Splitting on a character that does not occur. */
  lemma SplitNoChar(a: string, c: char)
    requires forall j | 0 <= j < |a| :: a[j] != c
    ensures Split(a, [c]) == [a]
  {
    NoCharOccurs(a, c);
    SplitNone(a, [c]);
  }

  /** Lines joined by line breaks, as a multi-line source holds them. */
  function JoinLines(lines: seq<string>): (s: string)
    requires |lines| > 0
    ensures |s| >= |lines[0]|
  {
    if |lines| == 1 then lines[0] else lines[0] + "\n" + JoinLines(lines[1..])
  }

  /** Lines without line breaks, joined by line breaks, split back into
      those lines. */
  lemma {:induction false} SplitJoinLines(lines: seq<string>)
    requires |lines| > 0
    requires forall y, j | 0 <= y < |lines| && 0 <= j < |lines[y]| :: lines[y][j] != '\n'
    ensures Split(JoinLines(lines), "\n") == lines
  {
    if |lines| == 1 {
      SplitNoChar(lines[0], '\n');
    } else {
      SplitJoinLines(lines[1..]);
      SplitAtChar(lines[0], '\n', JoinLines(lines[1..]));
      assert lines == [lines[0]] + lines[1..];
    }
  }

  /** Rust's `str::split_whitespace`: the maximal runs of non-whitespace
      characters, in order. */
  function Words(s: string): (r: seq<string>)
    ensures forall k | 0 <= k < |r| :: |r[k]| > 0 && forall i | 0 <= i < |r[k]| :: !IsWhitespace(r[k][i])
    decreases |s|
  {
    if s == [] then []
    else if IsWhitespace(s[0]) then Words(s[1..])
    else
      var n := WordLength(s);
      [s[..n]] + Words(s[n..])
  }

  /** Length of the run of non-whitespace characters at the start of `s`. */
  function WordLength(s: string): (n: nat)
    ensures n <= |s|
    ensures forall i | 0 <= i < n :: !IsWhitespace(s[i])
    ensures n == |s| || IsWhitespace(s[n])
  {
    if s == [] || IsWhitespace(s[0]) then 0 else 1 + WordLength(s[1..])
  }

  /** `w` sits in `s` at `a`, with whitespace or an end of `s` on either
      side. */
  predicate BoundedAt(s: string, w: string, a: nat) {
    && a + |w| <= |s| && s[a..a + |w|] == w
    && (a == 0 || IsWhitespace(s[a - 1]))
    && (a + |w| == |s| || IsWhitespace(s[a + |w|]))
  }

  /** Position `i` lies inside one of `words`, placed at `starts`. */
  predicate InWord(words: seq<string>, starts: seq<nat>, i: int) {
    exists k | 0 <= k < |words| && k < |starts| :: starts[k] <= i < starts[k] + |words[k]|
  }

  /** `words`, placed at `starts`, are the maximal runs of non-whitespace
      characters of `s`: each is bounded by whitespace or the ends of `s`,
      they come left to right without touching, and every non-whitespace
      character of `s` lies in one of them. */
  predicate MaximalWords(s: string, words: seq<string>, starts: seq<nat>) {
    && |starts| == |words|
    && (forall k | 0 <= k < |words| :: BoundedAt(s, words[k], starts[k]))
    && (forall k | 0 <= k < |words| - 1 :: starts[k] + |words[k]| < starts[k + 1])
    && (forall i | 0 <= i < |s| && !IsWhitespace(s[i]) :: InWord(words, starts, i))
  }

  /** `Words` finds every maximal run of non-whitespace characters, in
      order. */
  lemma {:induction false} WordsMaximal(s: string)
    ensures exists starts :: MaximalWords(s, Words(s), starts)
    decreases |s|
  {
    if s == [] {
      assert Words(s) == [] && MaximalWords(s, [], []);
    } else if IsWhitespace(s[0]) {
      WordsMaximal(s[1..]);
      WordsMaximalSpace(s);
    } else {
      WordsMaximal(s[WordLength(s)..]);
      WordsMaximalWord(s);
    }
  }

  /** The step of `WordsMaximal` past leading whitespace. */
  lemma WordsMaximalSpace(s: string)
    requires |s| > 0 && IsWhitespace(s[0])
    requires exists starts :: MaximalWords(s[1..], Words(s[1..]), starts)
    ensures exists starts :: MaximalWords(s, Words(s), starts)
  {
    var starts :| MaximalWords(s[1..], Words(s[1..]), starts);
    WordsSkip(s, Words(s[1..]), starts);
    assert MaximalWords(s, Words(s), Shift(starts, 1));
  }

  /** The step of `WordsMaximal` past a leading word. */
  lemma WordsMaximalWord(s: string)
    requires |s| > 0 && !IsWhitespace(s[0])
    requires exists starts :: MaximalWords(s[WordLength(s)..], Words(s[WordLength(s)..]), starts)
    ensures exists starts :: MaximalWords(s, Words(s), starts)
  {
    var n := WordLength(s);
    var rest := Words(s[n..]);
    var starts :| MaximalWords(s[n..], rest, starts);
    WordsShifted(s, n, rest, starts);
    WordsCons(s, n, rest, Shift(starts, n));
    assert MaximalWords(s, Words(s), [0] + Shift(starts, n));
  }

  /** Whitespace before the words of the rest: the same words, placed one
      further right. */
  lemma WordsSkip(s: string, words: seq<string>, starts: seq<nat>)
    requires |s| > 0 && IsWhitespace(s[0]) && MaximalWords(s[1..], words, starts)
    requires forall k | 0 <= k < |words| :: |words[k]| > 0 && !IsWhitespace(words[k][0])
    ensures MaximalWords(s, words, Shift(starts, 1))
  {
    WordsShifted(s, 1, words, starts);
  }

  /** Starts moved `n` places right. */
  function Shift(starts: seq<nat>, n: nat): (r: seq<nat>)
    ensures |r| == |starts| && forall k | 0 <= k < |starts| :: r[k] == starts[k] + n
  {
    seq(|starts|, k requires 0 <= k < |starts| => starts[k] + n)
  }

  /** The first word of `s`, of length `n`, put before the words of the
      rest, placed past it. */
  lemma WordsCons(s: string, n: nat, words: seq<string>, starts: seq<nat>)
    requires 0 < n <= |s| && n == WordLength(s) && |starts| == |words|
    requires forall k | 0 <= k < |words| :: BoundedAt(s, words[k], starts[k])
    requires forall k | 0 <= k < |words| - 1 :: starts[k] + |words[k]| < starts[k + 1]
    requires forall i | n <= i < |s| && !IsWhitespace(s[i]) :: InWord(words, starts, i)
    requires |starts| > 0 ==> n < starts[0]
    ensures MaximalWords(s, [s[..n]] + words, [0] + starts)
  {
    ConsBounded(s, n, words, starts);
    ConsCovered(s, n, words, starts);
  }

  /** The first word, at 0, and the later words are each bounded. */
  lemma ConsBounded(s: string, n: nat, words: seq<string>, starts: seq<nat>)
    requires 0 < n <= |s| && n == WordLength(s) && |starts| == |words|
    requires forall k | 0 <= k < |words| :: BoundedAt(s, words[k], starts[k])
    ensures forall k | 0 <= k < |words| + 1 :: BoundedAt(s, ([s[..n]] + words)[k], ([0] + starts)[k])
  {
    FirstWordBounded(s);
    BoundedCons(s, s[..n], 0, words, starts, [s[..n]] + words, [0] + starts);
  }

  /** Boundedness of each word survives putting one more bounded word in
      front. */
  lemma BoundedCons(s: string, w: string, a: nat, words: seq<string>, starts: seq<nat>, words': seq<string>, starts': seq<nat>)
    requires words' == [w] + words && starts' == [a] + starts && |starts| == |words|
    requires BoundedAt(s, w, a) && forall k | 0 <= k < |words| :: BoundedAt(s, words[k], starts[k])
    ensures forall k | 0 <= k < |words'| :: BoundedAt(s, words'[k], starts'[k])
  {
    forall k | 0 <= k < |words'| ensures BoundedAt(s, words'[k], starts'[k]) {
      if k > 0 {
        var w', a' := words[k - 1], starts[k - 1];
        assert BoundedAt(s, w', a');
        assert words'[k] == w' && starts'[k] == a';
      }
    }
  }

  /** The first run of non-whitespace of `s` is bounded at 0. */
  lemma FirstWordBounded(s: string)
    ensures BoundedAt(s, s[..WordLength(s)], 0)
  {
  }

  /** A first word covering `s[..n]` and later words covering the rest
      cover every non-whitespace character. */
  lemma ConsCovered(s: string, n: nat, words: seq<string>, starts: seq<nat>)
    requires 0 < n <= |s| && |starts| == |words|
    requires forall i | n <= i < |s| && !IsWhitespace(s[i]) :: InWord(words, starts, i)
    ensures forall i | 0 <= i < |s| && !IsWhitespace(s[i]) :: InWord([s[..n]] + words, [0] + starts, i)
  {
    var words', starts' := [s[..n]] + words, [0] + starts;
    forall i | 0 <= i < |s| && !IsWhitespace(s[i]) ensures InWord(words', starts', i) {
      if i < n {
        assert starts'[0] <= i < starts'[0] + |words'[0]|;
      } else {
        var k :| 0 <= k < |words| && k < |starts| && starts[k] <= i < starts[k] + |words[k]|;
        assert starts'[k + 1] <= i < starts'[k + 1] + |words'[k + 1]|;
      }
    }
  }

  /** The words of `s[n..]`, moved `n` places right, stay bounded and in
      order in `s` and cover its non-whitespace from `n` on, when whitespace
      lies on one side of position `n`. */
  lemma WordsShifted(s: string, n: nat, words: seq<string>, starts: seq<nat>)
    requires 0 < n <= |s| && (IsWhitespace(s[n - 1]) || n == |s| || IsWhitespace(s[n]))
    requires MaximalWords(s[n..], words, starts)
    requires forall k | 0 <= k < |words| :: |words[k]| > 0 && !IsWhitespace(words[k][0])
    ensures forall k | 0 <= k < |words| :: BoundedAt(s, words[k], Shift(starts, n)[k])
    ensures forall k | 0 <= k < |words| - 1 :: Shift(starts, n)[k] + |words[k]| < Shift(starts, n)[k + 1]
    ensures forall i | n <= i < |s| && !IsWhitespace(s[i]) :: InWord(words, Shift(starts, n), i)
    ensures |starts| > 0 && !IsWhitespace(s[n - 1]) ==> n < Shift(starts, n)[0]
  {
    ShiftAllBounded(s, n, words, starts);
    ShiftCovered(s, n, words, starts);
  }

  /** Each word of `s[n..]`, moved `n` places right, is bounded in `s`. */
  lemma ShiftAllBounded(s: string, n: nat, words: seq<string>, starts: seq<nat>)
    requires 0 < n <= |s| && (IsWhitespace(s[n - 1]) || n == |s| || IsWhitespace(s[n]))
    requires |starts| == |words| && forall k | 0 <= k < |words| :: BoundedAt(s[n..], words[k], starts[k])
    requires forall k | 0 <= k < |words| :: |words[k]| > 0 && !IsWhitespace(words[k][0])
    ensures forall k | 0 <= k < |words| :: BoundedAt(s, words[k], Shift(starts, n)[k])
    ensures |starts| > 0 && !IsWhitespace(s[n - 1]) ==> n < Shift(starts, n)[0]
  {
    forall k | 0 <= k < |words| ensures BoundedAt(s, words[k], starts[k] + n) {
      ShiftBounded(s, n, words[k], starts[k]);
    }
    if |starts| > 0 {
      ShiftBounded(s, n, words[0], starts[0]);
    }
  }

  /** Words covering `s[n..]`, moved `n` places right, cover `s` from `n`
      on. */
  lemma ShiftCovered(s: string, n: nat, words: seq<string>, starts: seq<nat>)
    requires n <= |s| && |starts| == |words|
    requires forall i | 0 <= i < |s| - n && !IsWhitespace(s[n..][i]) :: InWord(words, starts, i)
    ensures forall i | n <= i < |s| && !IsWhitespace(s[i]) :: InWord(words, Shift(starts, n), i)
  {
    forall i | n <= i < |s| && !IsWhitespace(s[i]) ensures InWord(words, Shift(starts, n), i) {
      assert s[n..][i - n] == s[i];
      var k :| 0 <= k < |words| && k < |starts| && starts[k] <= i - n < starts[k] + |words[k]|;
      assert Shift(starts, n)[k] <= i < Shift(starts, n)[k] + |words[k]|;
    }
  }

  /** One word of `s[n..]`, moved `n` places right, is bounded in `s`; it
      cannot start right at `n` unless whitespace lies before `n`. */
  lemma ShiftBounded(s: string, n: nat, w: string, a: nat)
    requires 0 < n <= |s| && (IsWhitespace(s[n - 1]) || n == |s| || IsWhitespace(s[n]))
    requires BoundedAt(s[n..], w, a) && |w| > 0 && !IsWhitespace(w[0])
    ensures BoundedAt(s, w, a + n)
    ensures !IsWhitespace(s[n - 1]) ==> a > 0
  {
    var t := s[n..];
    assert s[a + n..a + n + |w|] == t[a..a + |w|];
    assert t[a] == w[0];
    if a + |w| < |t| {
      assert s[a + n + |w|] == t[a + |w|];
    }
    if a > 0 {
      assert s[a + n - 1] == t[a - 1];
    }
  }

  /** A word followed by whitespace and the rest of the text: the word
      comes first, then the words of the rest. */
  lemma WordsAfter(a: string, w: char, b: string)
    requires |a| > 0 && (forall i | 0 <= i < |a| :: !IsWhitespace(a[i])) && IsWhitespace(w)
    ensures Words(a + [w] + b) == [a] + Words(b)
  {
    var s := a + [w] + b;
    WordLengthOf(a, [w] + b);
    assert s == a + ([w] + b);
    assert s[..|a|] == a && s[|a|..] == [w] + b && ([w] + b)[1..] == b;
  }

  /** A text with no whitespace is one word. */
  lemma WordsOne(a: string)
    requires |a| > 0 && forall i | 0 <= i < |a| :: !IsWhitespace(a[i])
    ensures Words(a) == [a]
  {
    WordLengthOf(a, []);
    assert a + [] == a && a[..|a|] == a && a[|a|..] == [];
  }

  /** The first word of a text that starts with `a` and then whitespace or
      nothing is `a`'s length long. */
  lemma {:induction false} WordLengthOf(a: string, rest: string)
    requires (forall i | 0 <= i < |a| :: !IsWhitespace(a[i])) && (rest == [] || IsWhitespace(rest[0]))
    ensures WordLength(a + rest) == |a|
  {
    if a != [] {
      WordLengthOf(a[1..], rest);
      assert (a + rest)[1..] == a[1..] + rest;
    } else {
      assert a + rest == rest;
    }
  }

  /** Rust's `str::trim`: `s` without its leading and trailing whitespace. */
  function Trim(s: string): (r: string)
    ensures |r| <= |s|
    ensures r == [] || (!IsWhitespace(r[0]) && !IsWhitespace(r[|r| - 1]))
    ensures exists a :: TrimmedAt(s, r, a)
  {
    TrimmedOf(s, TrimStart(s), TrimEnd(TrimStart(s)));
    TrimEnd(TrimStart(s))
  }

  /** A whitespace prefix cut from `s` leaves `t`, a whitespace suffix cut
      from `t` leaves `r`: `r` sits in `s` where `t` starts. */
  lemma TrimmedOf(s: string, t: string, r: string)
    requires |t| <= |s| && t == s[|s| - |t|..] && forall i | 0 <= i < |s| - |t| :: IsWhitespace(s[i])
    requires |r| <= |t| && r == t[..|r|] && forall i | |r| <= i < |t| :: IsWhitespace(t[i])
    ensures TrimmedAt(s, r, |s| - |t|)
  {
    var a := |s| - |t|;
    assert r == s[a..a + |r|];
    forall i | a + |r| <= i < |s| ensures IsWhitespace(s[i]) {
      assert s[i] == t[i - a];
    }
  }

  /** `r` is `s[a..a + |r|]`, and everything of `s` outside it is whitespace. */
  predicate TrimmedAt(s: string, r: string, a: int) {
    && 0 <= a <= |s| - |r|
    && r == s[a..a + |r|]
    && (forall i | 0 <= i < a :: IsWhitespace(s[i]))
    && (forall i | a + |r| <= i < |s| :: IsWhitespace(s[i]))
  }

  function TrimStart(s: string): (r: string)
    ensures |r| <= |s| && r == s[|s| - |r|..]
    ensures r == [] || !IsWhitespace(r[0])
    ensures forall i | 0 <= i < |s| - |r| :: IsWhitespace(s[i])
  {
    if s != [] && IsWhitespace(s[0]) then TrimStart(s[1..]) else s
  }

  function TrimEnd(s: string): (r: string)
    ensures |r| <= |s| && r == s[..|r|]
    ensures r == [] || !IsWhitespace(r[|r| - 1])
    ensures forall i | |r| <= i < |s| :: IsWhitespace(s[i])
  {
    if s != [] && IsWhitespace(s[|s| - 1]) then TrimEnd(s[..|s| - 1]) else s
  }

  // ---------------------------------------------------------------------
  // Maximal runs of decimal digits

  /** A run of digits found in a line: where it starts and what it holds. */
  datatype Run = Run(start: nat, digits: string) {
    function End(): nat { start + |digits| }
  }

  /** `run` is a maximal, non-empty block of digits of `s`. */
  predicate WellPlaced(s: string, run: Run) {
    && |run.digits| > 0
    && run.End() <= |s|
    && s[run.start..run.End()] == run.digits
    && AllDigits(run.digits)
    && (run.start == 0 || !IsDigit(s[run.start - 1]))
    && (run.End() == |s| || !IsDigit(s[run.End()]))
  }

  /** `runs` lists, left to right, every maximal block of digits of `s`. */
  predicate MaximalRuns(s: string, runs: seq<Run>) {
    && (forall k | 0 <= k < |runs| :: WellPlaced(s, runs[k]))
    && (forall k, l | 0 <= k < l < |runs| :: runs[k].End() < runs[l].start)
    && (forall i | 0 <= i < |s| && IsDigit(s[i]) ::
          exists k | 0 <= k < |runs| :: runs[k].start <= i < runs[k].End())
  }

  /** The digit runs of `s`, built one character at a time as a scanner
      reading `s` left to right would: a digit after a digit extends the
      last run, any other digit starts a new one. */
  function Runs(s: string): seq<Run> {
    if s == [] then []
    else
      var p, c := s[..|s| - 1], s[|s| - 1];
      var prev := Runs(p);
      if !IsDigit(c) then prev
      else if |p| > 0 && IsDigit(p[|p| - 1]) && |prev| > 0 then
        var last := prev[|prev| - 1];
        prev[..|prev| - 1] + [Run(last.start, last.digits + [c])]
      else prev + [Run(|p|, [c])]
  }

  predicate NoDigits(w: string) {
    forall i | 0 <= i < |w| :: !IsDigit(w[i])
  }

  /** Characters that are not digits at the end add no run. */
  lemma {:induction false} RunsAppendNoDigits(q: string, w: string)
    requires NoDigits(w)
    ensures Runs(q + w) == Runs(q)
    decreases |w|
  {
    if w != [] {
      var s := q + w;
      var w' := w[..|w| - 1];
      assert s[..|s| - 1] == q + w';
      assert s[|s| - 1] == w[|w| - 1];
      RunsAppendNoDigits(q, w');
    } else {
      assert q + w == q;
    }
  }

  /** `Runs` of a text with one more character. */
  lemma RunsSnoc(p: string, c: char)
    ensures var prev := Runs(p);
      Runs(p + [c]) ==
        if !IsDigit(c) then prev
        else if |p| > 0 && IsDigit(p[|p| - 1]) && |prev| > 0 then
          prev[..|prev| - 1] + [Run(prev[|prev| - 1].start, prev[|prev| - 1].digits + [c])]
        else prev + [Run(|p|, [c])]
  {
    assert (p + [c])[..|p|] == p;
  }

  /** A block of digits after a non-digit (or at the start) is one more
      run. */
  lemma {:induction false} RunsAppendBlock(p: string, d: string)
    requires |d| > 0 && AllDigits(d) && (p == [] || !IsDigit(p[|p| - 1]))
    ensures Runs(p + d) == Runs(p) + [Run(|p|, d)]
    decreases |d|
  {
    var d', c := d[..|d| - 1], d[|d| - 1];
    assert d == d' + [c];
    assert p + d == (p + d') + [c];
    RunsSnoc(p + d', c);
    if d' == [] {
      assert p + d' == p;
    } else {
      RunsAppendBlock(p, d');
      assert (p + d')[|p + d'| - 1] == d'[|d'| - 1];
    }
  }

  /** A line without digits has no run. */
  lemma NoRuns(a: string)
    requires NoDigits(a)
    ensures Runs(a) == []
  {
    RunsAppendNoDigits([], a);
    assert [] + a == a;
  }

  /** A number followed by non-digits adds one run. */
  lemma RunsThen(p: string, d: string, b: string)
    requires p == [] || !IsDigit(p[|p| - 1])
    requires |d| > 0 && AllDigits(d) && NoDigits(b)
    ensures Runs(p + d + b) == Runs(p) + [Run(|p|, d)]
  {
    RunsAppendBlock(p, d);
    RunsAppendNoDigits(p + d, b);
  }

  /** `Runs` lists every maximal block of digits, left to right. */
  lemma {:induction false} RunsMaximal(s: string)
    ensures MaximalRuns(s, Runs(s))
  {
    if s != [] {
      var p, c := s[..|s| - 1], s[|s| - 1];
      RunsMaximal(p);
      var prev := Runs(p);
      assert s == p + [c];
      if !IsDigit(c) {
        RunsNonDigit(p, c, prev);
      } else if |p| > 0 && IsDigit(p[|p| - 1]) {
        RunsLastCovers(p, prev);
        RunsExtend(p, c, prev);
      } else {
        RunsStart(p, c, prev);
      }
    }
  }

  lemma RunsNonDigit(p: string, c: char, runs: seq<Run>)
    requires MaximalRuns(p, runs) && !IsDigit(c)
    ensures MaximalRuns(p + [c], runs)
  {
    var s := p + [c];
    forall k | 0 <= k < |runs| ensures WellPlaced(s, runs[k]) {
      PlacedSnoc(p, c, runs[k]);
    }
    forall i | 0 <= i < |s| && IsDigit(s[i])
      ensures exists k | 0 <= k < |runs| :: runs[k].start <= i < runs[k].End()
    {
      assert i < |p| && IsDigit(p[i]);
    }
  }

  lemma RunsLastCovers(p: string, runs: seq<Run>)
    requires MaximalRuns(p, runs) && |p| > 0 && IsDigit(p[|p| - 1])
    ensures |runs| > 0 && runs[|runs| - 1].End() == |p|
  {
    var k :| 0 <= k < |runs| && runs[k].start <= |p| - 1 < runs[k].End();
    assert WellPlaced(p, runs[|runs| - 1]);
  }

  lemma RunsExtend(p: string, c: char, runs: seq<Run>)
    requires MaximalRuns(p, runs) && IsDigit(c) && |runs| > 0 && runs[|runs| - 1].End() == |p|
    ensures var last := runs[|runs| - 1];
      MaximalRuns(p + [c], runs[..|runs| - 1] + [Run(last.start, last.digits + [c])])
  {
    var s := p + [c];
    var last := runs[|runs| - 1];
    var ext := Run(last.start, last.digits + [c]);
    var runs' := runs[..|runs| - 1] + [ext];
    forall k | 0 <= k < |runs'| ensures WellPlaced(s, runs'[k]) {
      if k < |runs| - 1 {
        assert runs'[k] == runs[k];
        PlacedSnoc(p, c, runs[k]);
      } else {
        PlacedExtend(p, c, last);
      }
    }
    forall i | 0 <= i < |s| && IsDigit(s[i])
      ensures exists k | 0 <= k < |runs'| :: runs'[k].start <= i < runs'[k].End()
    {
      if i == |p| {
        assert runs'[|runs'| - 1] == ext;
      } else {
        assert IsDigit(p[i]);
        var k :| 0 <= k < |runs| && runs[k].start <= i < runs[k].End();
        if k < |runs| - 1 {
          assert runs'[k] == runs[k];
        } else {
          assert runs'[k] == ext;
        }
      }
    }
  }

  /** A run of a string ending in a non-digit (or of the empty string)
      ends before its last character. */
  lemma PlacedBeforeNonDigit(p: string, r: Run)
    requires WellPlaced(p, r) && (|p| == 0 || !IsDigit(p[|p| - 1]))
    ensures r.End() < |p|
  {
    assert p[r.start..r.End()][|r.digits| - 1] == p[r.End() - 1];
  }

  /** A run stays in place when a character is appended that cannot
      extend it. */
  lemma PlacedSnoc(p: string, c: char, r: Run)
    requires WellPlaced(p, r) && (r.End() < |p| || !IsDigit(c))
    ensures WellPlaced(p + [c], r)
  {
    var s := p + [c];
    assert s[r.start..r.End()] == p[r.start..r.End()];
  }

  /** The run ending a string grows by an appended digit. */
  lemma PlacedExtend(p: string, c: char, r: Run)
    requires WellPlaced(p, r) && r.End() == |p| && IsDigit(c)
    ensures WellPlaced(p + [c], Run(r.start, r.digits + [c]))
  {
    var s := p + [c];
    assert s[r.start..r.End() + 1] == p[r.start..r.End()] + [c];
  }

  lemma RunsStart(p: string, c: char, runs: seq<Run>)
    requires MaximalRuns(p, runs) && IsDigit(c) && (|p| == 0 || !IsDigit(p[|p| - 1]))
    ensures MaximalRuns(p + [c], runs + [Run(|p|, [c])])
  {
    var s := p + [c];
    var runs' := runs + [Run(|p|, [c])];
    forall k | 0 <= k < |runs| ensures WellPlaced(s, runs[k]) && runs[k].End() < |p| {
      PlacedBeforeNonDigit(p, runs[k]);
      PlacedSnoc(p, c, runs[k]);
    }
    assert s[|p|..|p| + 1] == [c];
    forall i | 0 <= i < |s| && IsDigit(s[i])
      ensures exists k | 0 <= k < |runs'| :: runs'[k].start <= i < runs'[k].End()
    {
      if i == |p| {
        assert runs'[|runs|].start <= i < runs'[|runs|].End();
      } else {
        assert IsDigit(p[i]);
        var k :| 0 <= k < |runs| && runs[k].start <= i < runs[k].End();
        assert runs'[k].start <= i < runs'[k].End();
      }
    }
  }

  // ---------------------------------------------------------------------
  // Columns of a matrix given as rows

  /** The cells at index `j` of the rows that reach it, top to bottom. */
  function Column<T>(matrix: seq<seq<T>>, j: nat): seq<T> {
    if matrix == [] then []
    else
      var row := matrix[|matrix| - 1];
      Column(matrix[..|matrix| - 1], j) + (if j < |row| then [row[j]] else [])
  }

  lemma {:induction false} ColumnOfRectangle<T>(matrix: seq<seq<T>>, w: nat, j: nat)
    requires forall k | 0 <= k < |matrix| :: |matrix[k]| == w
    requires j < w
    ensures |Column(matrix, j)| == |matrix|
    ensures forall i | 0 <= i < |matrix| :: Column(matrix, j)[i] == matrix[i][j]
  {
    if matrix != [] {
      var n := |matrix| - 1;
      assert forall k | 0 <= k < n :: matrix[..n][k] == matrix[k];
      ColumnOfRectangle(matrix[..n], w, j);
    }
  }
}
