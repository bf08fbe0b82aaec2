# Advent of Code 2023 solvers, modelled in Dafny

This project models the puzzle solvers of an Advent of Code 2023 repository. There is one solver per day, and each is a source file `src/days/day_N.rs`. Each solver parses the puzzle text into small records and reduces them to one or two integers. The model has one Dafny module per solver, `Day1` to `Day13` in `day1.dfy` to `day13.dfy`. A shared module `Common` in `common.dfy` states the parts of Rust's string and number API that the solvers use: `split`, `split_once`, `split_whitespace`, `trim`, `find`, `rfind` and `parse`.

Conventions used throughout:

- Text is `seq<char>`. Integers are unbounded: `nat` stands for `usize`/`u32`, and `int` for `isize`/`i32`.
- Where the source panics (an `unwrap` on bad input, an index out of range, a `panic!` on an unknown part), the model returns `None`. The run aborts there.
- Code that changes state step by step keeps that form:
  - the Day 11 galaxy map is a class whose map field is updated in place;
  - the Day 10 worklist, the Day 4 copy table, the Day 5 range clipping, the Day 7 sort and the Day 8 walks are methods with loops;
  - each of these is proved against a function that specifies it.
- Where the source iterates a `HashMap` or `HashSet`, the model takes the elements in an order chosen with `:|`. The results are proved independent of that order wherever the source's answer is (Days 8 and 11). Day 13 is the exception: there the order decides which split is reported, and the model states that some split is.

## Model

| member | source | states |
|---|---|---|
| Common.ParseNat | src/days/day_7.rs:117 | an unsigned parse succeeds exactly on an optional '+' and one or more decimal digits, giving their decimal value |
| Common.ParseInt | src/days/day_2.rs:48 | a signed parse also takes a leading '-' and negates, and otherwise agrees with the unsigned parse |
| Common.ParseNats | src/days/day_12.rs:69 | collecting parses succeeds iff every item parses, element by element |
| Common.ParseInts | src/days/day_9.rs:18 | collecting signed parses succeeds iff every item parses, element by element |
| Common.AllSome | src/days/day_12.rs:69 | collecting options yields a value iff every element has one, in order |
| Common.AllSomeIs | src/days/day_12.rs:69 | the collected list is determined by the elements' values |
| Common.SumConcat | src/days/day_12.rs:4-8 | a sum over joined lists is the sum of the sums |
| Common.Find | src/days/day_1.rs:18 | the index of the first occurrence of the pattern, or none when it does not occur |
| Common.RFind | src/days/day_1.rs:27 | the index of the last occurrence of the pattern, or none when it does not occur |
| Common.FindAt | src/days/day_1.rs:18 | an occurrence with none before it is the one found |
| Common.FindAtFirstChar | src/days/day_2.rs:39 | an occurrence before which the pattern's first character does not appear is the one found |
| Common.NoFirstChar | src/days/day_2.rs:39 | a pattern whose first character is absent is not found |
| Common.NoCharOccurs | src/days/day_8.rs:64 | a character that does not appear is not found |
| Common.OccursAtChar | src/days/day_10.rs:7 | a one-character pattern occurs exactly where that character is |
| Common.Split | src/days/day_10.rs:7 | splitting gives at least one piece, none containing the separator, and joining the pieces with the separator gives the input back |
| Common.SplitNone | src/days/day_10.rs:7 | a string without the separator splits into itself |
| Common.SplitFirst | src/days/day_2.rs:39-43 | splitting cuts at the first separator and goes on with the rest, which is also what the one-cut split returns |
| Common.SplitAtChar | src/days/day_3.rs:80 | a string split on a character is the piece before its first occurrence followed by the pieces of the rest |
| Common.SplitNoChar | src/days/day_3.rs:80 | a string without the character splits into itself |
| Common.JoinLines | src/days/day_10.rs:264-269 | lines joined by line breaks, as a multi-line source holds them, at least as long as the first line |
| Common.SplitJoinLines | src/days/day_10.rs:7 | lines without line breaks, joined by line breaks, split back into exactly those lines |
| Common.SplitJoin | src/days/day_2.rs:43-46 | pieces free of the separator's first character, joined by the separator, split back into exactly those pieces |
| Common.SplitOnce | src/days/day_2.rs:39 | the cut at the first occurrence of the separator, present iff the separator occurs, with the input equal to the two parts around it |
| Common.FindFrom | src/days/day_1.rs:18 | the first occurrence at or after `from`, with none between `from` and it, or none when no occurrence lies at or after `from` |
| Common.RFindUpTo | src/days/day_1.rs:27 | the last occurrence at or before `upto`, with none after it up to `upto`, or none when none lies at or before `upto` |
| Common.OccursAtFirst | src/days/day_2.rs:39 | where a non-empty pattern occurs, the input has the pattern's first character |
| Common.WordLength | src/days/day_9.rs:18 | the length of the leading run of non-whitespace characters, ending at the input's end or at a whitespace character |
| Common.Words | src/days/day_9.rs:18 | the pieces are non-empty and free of whitespace; `Common.WordsMaximal` shows they are exactly the maximal runs of non-whitespace, in order |
| Common.WordsMaximal | src/days/day_9.rs:18 | the pieces can be placed in the text so that each is bounded by whitespace or the text's ends, they come left to right without touching, and every non-whitespace character lies in one of them |
| Common.WordsAfter | src/days/day_9.rs:18 | a whitespace-free word followed by whitespace comes first, then the words of the rest |
| Common.WordsOne | src/days/day_9.rs:18 | a non-empty text without whitespace is one word |
| Common.WordLengthOf | src/days/day_9.rs:18 | a whitespace-free start followed by whitespace or nothing is exactly the first word's length |
| Common.Trim | src/days/day_4.rs:36 | the result is a slice of the input with only whitespace outside it, and neither starts nor ends with whitespace |
| Common.TrimStart | src/days/day_4.rs:36 | a suffix of the input, starting with a non-whitespace character unless empty, after only whitespace |
| Common.TrimEnd | src/days/day_4.rs:36 | a prefix of the input, ending with a non-whitespace character unless empty, before only whitespace |
| Common.TrimmedOf | src/days/day_4.rs:36 | cutting leading whitespace and then trailing whitespace leaves the trimmed slice at the offset of the first cut |
| Common.RunsMaximal | src/days/day_4.rs:36-49 | the digit runs of a line are exactly its maximal blocks of digits, left to right |
| Common.RunsStart | src/days/day_4.rs:37-38 | a digit after a non-digit (or at the start) opens a new run at its own index |
| Common.RunsExtend | src/days/day_4.rs:37-38 | a digit right after a run extends that last run by the digit |
| Common.RunsNonDigit | src/days/day_4.rs:39-44 | a non-digit closes any open run and leaves the runs unchanged |
| Common.RunsLastCovers | src/days/day_4.rs:47-49 | when the text ends with a digit, its last run reaches the end of the text |
| Common.RunsAppendBlock | src/days/day_4.rs:36-49 | a block of digits after a non-digit, or at the start, adds exactly one run: itself, at its own index |
| Common.ColumnOfRectangle | src/days/day_13.rs:157-166 | on rows of one width, a column holds one cell per row, the row's cell at that index |
| Day1.PatternIndex | src/days/day_1.rs:55-61 | the index found lies in range, names a pattern equal to `p`, and when none is found no pattern from `k` on equals `p` |
| Day1.PatternCases | src/days/day_1.rs:55-59 | a string is searched for by the second part exactly when it is one of the nine digits or one of the nine words |
| Day1.DigitShape | src/days/day_1.rs:43-53 | each digit pattern is one character from 1 to 9 and parses to itself |
| Day1.WordShape | src/days/day_1.rs:43-53 | each word has at least three letters, does not start with a digit, and its first two letters determine the word and the digit it spells |
| Day1.ParseDigit | src/days/day_1.rs:3-9 | a spelled-out digit becomes its digit string; any other string comes back unchanged |
| Day1.IndexOfWord | src/days/day_1.rs:43-53 | each word has a position in the word list, below nine, holding that word |
| Day1.ParseDigitIsDigit | src/days/day_1.rs:3-9 | every searched pattern parses to a single character that is a digit from 1 to 9 |
| Day1.OnePatternAt | src/days/day_1.rs:17-36 | no two different patterns begin at the same position, so which one is found first cannot depend on the search order |
| Day1.WordsByPrefix | src/days/day_1.rs:43-53 | two spelled-out digits that share their first two letters are the same word |
| Day1.DigitsByFirst | src/days/day_1.rs:43-59 | a one-character pattern is the only pattern starting with its character |
| Day1.AnyBelowStep | src/days/day_1.rs:17-36 | some pattern before index `k + 1` begins at `i` iff one before `k` does or the pattern at `k` does |
| Day1.FirstFromIsFirst | src/days/day_1.rs:18-26 | the first occurrence found is an occurrence, nothing earlier is one, and when none is found no pattern occurs at all |
| Day1.LastUpToIsLast | src/days/day_1.rs:27-35 | the last occurrence found is an occurrence, nothing later is one, and when none is found no pattern occurs at all |
| Day1.NoneBeyondEnd | src/days/day_1.rs:17-36 | no non-empty pattern begins at or after the end of the line |
| Day1.DigitAtIs | src/days/day_1.rs:23 | the digit read at an occurrence is the parsed digit of whichever pattern occurs there |
| Day1.WordDigitOf | src/days/day_1.rs:3-9 | a word starts with a non-digit and its first two letters determine its digit |
| Day1.DigitOf | src/days/day_1.rs:3-9 | a one-character pattern is a digit and parses to itself |
| Day1.UpdateMin | src/days/day_1.rs:18-26 | after each searched pattern, the running minimum is the earliest occurrence among the patterns searched so far, with its digit |
| Day1.UpdateMax | src/days/day_1.rs:27-35 | after each searched pattern, the running maximum is the latest occurrence among the patterns searched so far, with its digit |
| Day1.SearchAll | src/days/day_1.rs:17-36 | after the loop over all patterns, the minimum is the earliest occurrence before 999 with its digit and the maximum the latest occurrence with its digit |
| Day1.MinFinal | src/days/day_1.rs:12-36 | after all patterns, the first-digit string is that of the earliest occurrence in the line |
| Day1.MaxFinal | src/days/day_1.rs:12-36 | after all patterns, the last-digit string is that of the latest occurrence in the line |
| Day1.ParseLine | src/days/day_1.rs:11-38 | the loop over the patterns yields the calibration value of the line, or the failed parse when no pattern occurs |
| Day1.NoValue | src/days/day_1.rs:17-37 | a line in which no pattern occurs from the front or from the back has no value |
| Day1.ParseDigits | src/days/day_1.rs:37 | joining two digit strings and parsing gives ten times the first plus the second; one digit string parses to itself |
| Day1.CalibrationValue | src/days/day_1.rs:11-38 | a line has a value iff some pattern occurs in it; the value is first digit times ten plus last digit, or only the last digit when the first occurrence is at 999 or later |
| Day1.ValueOfDigits | src/days/day_1.rs:37 | the value is built from the digits read at the first and the last occurrence |
| Day1.TwoDigits | src/days/day_1.rs:37 | the parsed number of the joined digit strings, with or without the first one |
| Day1.FirstAndLast | src/days/day_1.rs:17-36 | a first occurrence exists iff a last one does, the first is not after the last, and each stands for a single digit |
| Day1.DigitIsSingle | src/days/day_1.rs:23 | what is read at an occurrence is one digit character |
| Day1.ToFind | src/days/day_1.rs:57-61 | part 1 searches the digits, part 2 the digits and the words; any other part has no search list (the panic) |
| Day1.PartsArePatterns | src/days/day_1.rs:55-59 | both search lists consist of patterns |
| Day1.SumOfPresent | src/days/day_1.rs:63-65 | the sum exists iff every line's value does |
| Day1.LineValues | src/days/day_1.rs:63-64 | one value per line, each the calibration value of that line |
| Day1.Exec | src/days/day_1.rs:40-66 | a part other than 1 or 2 aborts; otherwise the result is the sum of the calibration values of the lines |
| Day1.SumLines | src/days/day_1.rs:63-65 | the running sum over the lines equals the sum of their calibration values |
| Day1.SumValues | src/days/day_1.rs:63-65 | the loop over the lines gives the sum of their values, or nothing when some line has none |
| Day1.AddLine | src/days/day_1.rs:63-65 | adding one line's value extends the running sum, and a missing value makes the whole sum missing |
| Day1.SumStep | src/days/day_1.rs:63-65 | adding a present value extends the sum; a missing value makes the whole sum missing |
| Day1.SumOfSnoc | src/days/day_1.rs:63-65 | the sum of a list with one more value |
| Day1.SumOfNoneStays | src/days/day_1.rs:63-65 | a missing value in a prefix leaves the whole sum missing |
| Day1.ExampleSingleDigit | src/days/day_1.rs:106-110 | the line "1" is worth 11 |
| Day1.NoPatternAt | src/days/day_1.rs:17-36 | no pattern begins where nothing readable as a digit or word begins |
| Day1.FirstFromSkip | src/days/day_1.rs:18-26 | positions where no pattern begins do not change the first occurrence |
| Day1.LastUpToSkip | src/days/day_1.rs:27-35 | positions where no pattern begins do not change the last occurrence |
| Day1.FirstAt | src/days/day_1.rs:18-26 | an occurrence with nothing readable before it is the first occurrence |
| Day1.LastAt | src/days/day_1.rs:27-35 | an occurrence with nothing readable after it is the last occurrence |
| Day1.ValueAt | src/days/day_1.rs:11-38 | a line whose first digit (before position 999) is `a` and last digit `b` is worth ten times `a` plus `b` |
| Day1.ExampleWordsAndDigits | src/days/day_1.rs:95-98 | with words, the line "eightone7threenl7mtxbmkpkzqzljrdk" is worth 87: the word "eight" comes first and the digit 7 last |
| Day1.ExampleLoneDigit | src/days/day_1.rs:101-104 | with words, the line "hzgrkrbmjmzhpfkfgg5" is worth 55: its one digit is both first and last |
| Day2.MaxOfIsMax | src/days/day_2.rs:21-30 | each colour of the fewest cubes is at least zero, at least that colour in every draw, and is zero or shown by some draw |
| Day2.MaxStones | src/days/day_2.rs:21-30 | the loop's running maximum of each colour is the fewest cubes the draws need |
| Day2.IsValidIff | src/days/day_2.rs:32-35 | a game is possible iff every draw has at most 12 red, 13 green and 14 blue |
| Day2.PowerOfMax | src/days/day_2.rs:15-17 | a game's power is never negative, and is zero when some colour never shows a positive count |
| Day2.PullShift | src/days/day_2.rs:47-54 | a pull adds the same amount whatever the counts before it, and aborts regardless of them |
| Day2.NextAdd | src/days/day_2.rs:46-55 | one more pull keeps a sum of counts a sum |
| Day2.TallyConcat | src/days/day_2.rs:46-55 | the counts of a draw are the sum of the counts of any split of its pulls; one failing pull fails the whole |
| Day2.ParseDraw | src/days/day_2.rs:44-56 | the inner loop adds each pull to its colour; a pull without a space, a bad number or an unknown colour aborts |
| Day2.AddPull | src/days/day_2.rs:47-54 | one pull split at the space, its number parsed and added to its colour, or the abort for a missing space, a bad number or an unknown colour |
| Day2.TallyStops | src/days/day_2.rs:46-55 | once a pull aborts, the whole draw aborts |
| Day2.ParseLine | src/days/day_2.rs:38-60 | the loop over the draws gives the game of the line, or aborts where the source panics |
| Day2.ParseDraws | src/days/day_2.rs:43-57 | the loop over the draws gives every draw's counts in order, or aborts when any draw aborts |
| Day2.TotalsConcat | src/days/day_2.rs:68-78 | the totals of two lists of games add up |
| Day2.TotalsBounds | src/days/day_2.rs:68-78 | the power total is never negative, and the id total is zero when no game is possible |
| Day2.ExecOneGame | src/days/day_2.rs:68-78 | one game's totals are its own id-if-possible and power |
| Day2.ExampleGame | src/days/day_2.rs:100-125 | the test line parses to game 1 with draws (4, 0, 3), (1, 2, 6) and (0, 2, 0); that game needs 4 red, 2 green and 6 blue, is possible, and scores its id 1 and power 48 |
| Day2.ExampleParseLine | src/days/day_2.rs:100-125 | "Game 1: 3 blue, 4 red; 1 red, 2 green, 6 blue; 2 green" parses to game 1 with draws (4, 0, 3), (1, 2, 6) and (0, 2, 0) |
| Day2.GameOfParts | src/days/day_2.rs:38-60 | a line whose header id and draws parse gives the game of that id and those draws |
| Day2.ExampleLineHalves | src/days/day_2.rs:39 | the test line splits at ": " into "Game 1" and its draws |
| Day2.ExampleGameId | src/days/day_2.rs:40 | the id of "Game 1" is read from its sixth character on as 1 |
| Day2.ExampleDraws | src/days/day_2.rs:43-57 | the draws of the test line give (4, 0, 3), (1, 2, 6) and (0, 2, 0), in order |
| Day2.SegmentsOfThree | src/days/day_2.rs:43 | three segments free of ";" joined by "; " split back into those three |
| Day2.MatchesOfDraws | src/days/day_2.rs:43-57 | segments whose draws all parse give those draws in the same order |
| Day2.MatchesOfThree | src/days/day_2.rs:43-57 | three segments whose draws parse give those three draws in order |
| Day2.DrawOfOne | src/days/day_2.rs:46-55 | a segment free of commas is one pull added to zero |
| Day2.DrawOfTwo | src/days/day_2.rs:46-55 | two comma-free pulls joined by ", " are added to zero in order |
| Day2.DrawOfThree | src/days/day_2.rs:46-55 | three comma-free pulls joined by ", " are added to zero in order |
| Day2.TallyTwo | src/days/day_2.rs:46-55 | two pulls are added one after the other from zero |
| Day2.TallyThree | src/days/day_2.rs:46-55 | three pulls are added one after the other from zero |
| Day2.ExampleDrawOne | src/days/day_2.rs:46-56 | "3 blue, 4 red" counts 4 red, 0 green and 3 blue |
| Day2.ExampleDrawOnePulls | src/days/day_2.rs:46 | "3 blue, 4 red" is the pulls "3 blue" then "4 red" |
| Day2.ExampleDrawTwo | src/days/day_2.rs:46-56 | "1 red, 2 green, 6 blue" counts 1 red, 2 green and 6 blue |
| Day2.ExampleDrawTwoPulls | src/days/day_2.rs:46 | "1 red, 2 green, 6 blue" is its three pulls in order |
| Day2.ExampleDrawThree | src/days/day_2.rs:46-56 | "2 green" counts 0 red, 2 green and 0 blue |
| Day2.ExamplePullsOne | src/days/day_2.rs:47-54 | "3 blue" adds 3 blue and "4 red" adds 4 red to any counts |
| Day2.ExamplePullsTwo | src/days/day_2.rs:47-54 | "1 red", "2 green" and "6 blue" add 1 red, 2 green and 6 blue to any counts |
| Day2.ExampleImpossible | src/days/day_2.rs:32-35 | a draw of 20 red makes a game impossible |
| Day2.ExampleBadColour | src/days/day_2.rs:94-98 | "Game 1: 3 purple" aborts |
| Day2.ExampleHeader | src/days/day_2.rs:39 | the header splits at ": " into "Game 1" and the draws |
| Day2.ExampleBadDraw | src/days/day_2.rs:43-55 | the draw "3 purple" aborts |
| Day2.ExamplePurple | src/days/day_2.rs:94-98 | the draw "3 purple" has no counts |
| Day2.ExamplePurplePull | src/days/day_2.rs:53 | the pull "3 purple" aborts on its colour |
| Day2.ExamplePurpleSplit | src/days/day_2.rs:47 | the pull "3 purple" splits at the space into "3" and "purple" |
| Day3.InRangeIff | src/days/day_3.rs:14-21 | a point is in range of a number iff it touches one of the number's digits, diagonals included |
| Day3.ValueOfDigits | src/days/day_3.rs:11-13 | a number made of digits parses to the value of those digits |
| Day3.SymbolPointsAre | src/days/day_3.rs:56-59 | the points of a line are exactly the cells holding a symbol (neither digit nor '.'), left to right |
| Day3.PartsOf | src/days/day_3.rs:42-75 | one part per maximal run of digits |
| Day3.LinePartsAre | src/days/day_3.rs:42-75 | each part of a line lies on that line at a run of its digits, parts are separated by at least one cell, and every digit of the line belongs to some part |
| Day3.ParseLine | src/days/day_3.rs:42-75 | the scan of the characters yields the symbols and the maximal digit runs of the line, the last run included when the line ends in a digit |
| Day3.ScanStart | src/days/day_3.rs:51-55 | a digit after a non-digit starts a new number at its column |
| Day3.ScanExtend | src/days/day_3.rs:51-52 | a digit after a digit extends the current number |
| Day3.ScanNonDigit | src/days/day_3.rs:56-66 | a non-digit ends any number and adds a point unless it is '.' |
| Day3.AllPointsAre | src/days/day_3.rs:77-88 | the points of the schematic are exactly its symbols, each at its line and column |
| Day3.AllPartsLines | src/days/day_3.rs:77-88 | every part lies on a line of the schematic, and parts come line by line |
| Day3.PartsAndPoints | src/days/day_3.rs:77-88 | the loop over the lines appends each line's points and parts, parsed at the line's index |
| Day3.AllPartsDigits | src/days/day_3.rs:42-75 | every part the parser builds is a non-empty string of digits |
| Day3.SumScoresDigits | src/days/day_3.rs:27-37 | with digit parts the sum is defined, never negative, and zero when no part is in range of a symbol |
| Day3.ExecDefined | src/days/day_3.rs:24-40 | part one never aborts and is never negative |
| Day3.ExampleInRange | src/days/day_3.rs:150-182 | the twenty in-range and out-of-range points around "123" |
| Day3.ExampleValue | src/days/day_3.rs:184-192 | "123" has value 123 |
| Day3.ExampleParseLine | src/days/day_3.rs:96-108 | "123..*" has one symbol at column 5 and the number 123 at column 0 |
| Day3.ExampleRuns | src/days/day_3.rs:96-108 | the digit runs of "123..*" are the one run "123" at column 0 |
| Day3.ExampleRunOfDigits | src/days/day_3.rs:184-192 | the digit runs of "123" are the one run "123" at column 0 |
| Day3.ExampleSymbols | src/days/day_3.rs:96-108 | the only symbol of "123..*" is at column 5 of row 0 |
| Day3.ExampleTouching | src/days/day_3.rs:194-197 | "123*." scores 123 |
| Day3.ExampleParseTwoNumbers | src/days/day_3.rs:110-128 | "123..456" has no symbol and the numbers 123 at column 0 and 456 at column 5 |
| Day3.ExampleParseLines | src/days/day_3.rs:130-148 | the schematic "123...*" over ".456.#." has the symbols (6, 0) and (5, 1) and the numbers 123 at (0, 0) and 456 at (1, 1) |
| Day3.LinesOfTwo | src/days/day_3.rs:81 | two lines joined by a line break split back into those two lines |
| Day3.LinesOfThree | src/days/day_3.rs:81 | three lines joined by line breaks split back into those three lines |
| Day3.ExecOne | src/days/day_3.rs:24-37 | the part one of a one-line schematic sums the scores of that line's parts against its symbols |
| Day3.ExecTwo | src/days/day_3.rs:24-37 | the parts and points of a two-line schematic are those of each line, at line 0 and line 1, and part one sums their scores |
| Day3.ExecThree | src/days/day_3.rs:24-37 | the part one of a three-line schematic sums the scores of the parts of all three lines against the symbols of all three lines |
| Day3.SumScoresSnoc | src/days/day_3.rs:28-37 | one more part adds its score to the sum |
| Day3.ScoreTouching | src/days/day_3.rs:31-32 | a part in range of some symbol scores its value |
| Day3.ScoreAlone | src/days/day_3.rs:31-35 | a part in range of no symbol scores 0 |
| Day3.ValueOfThree | src/days/day_3.rs:11-13 | a three-digit number has the value of its digits in base ten |
| Day3.ValueOfOne | src/days/day_3.rs:11-13 | a one-digit number has the value of its digit |
| Day3.ExampleExecSymbolTooFar | src/days/day_3.rs:196 | "123.*" scores 0: the symbol is two columns past the number |
| Day3.ExampleExecSymbolAdjacent | src/days/day_3.rs:197 | "123*." scores 123 |
| Day3.ExampleExecSymbolBelow | src/days/day_3.rs:198 | "123..\n*...." scores 123: the symbol is diagonally below |
| Day3.ExampleExecSymbolTwoBelow | src/days/day_3.rs:199 | "123..\n.....\n*...." scores 0: the symbol is two lines down |
| Day3.ExampleExecSymbolDiagonal | src/days/day_3.rs:200 | "123..\n...*.\n....." scores 123 |
| Day3.ExampleExecSharedSymbol | src/days/day_3.rs:201 | "123..\n...*.\n..456" scores 579: one symbol counts for both numbers |
| Day3.ExampleExecTwoSymbols | src/days/day_3.rs:202 | "123..\n.*.*.\n..456" scores 579: a number next to two symbols counts once |
| Day3.ExampleExecOneSide | src/days/day_3.rs:203 | "123..\n....*\n..456" scores 456 |
| Day3.ExampleExecAllTouch | src/days/day_3.rs:204 | "111\n*$*\n1.1" scores 113 |
| Day3.ExampleExecLeftOnly | src/days/day_3.rs:205 | "111\n*..\n1.1" scores 112 |
| Day3.ExampleExecSameLine | src/days/day_3.rs:206 | "111\n...\n1*1" scores 2 |
| Day4.RunValuesSnoc | src/days/day_4.rs:32-52 | one more run adds exactly its number to the set |
| Day4.ExtractNumbers | src/days/day_4.rs:32-52 | the scan of the trimmed text gives the set of numbers of its maximal digit runs, the last run included |
| Day4.StartNumber | src/days/day_4.rs:37-38 | a digit after a non-digit starts a new number |
| Day4.ExtendNumber | src/days/day_4.rs:37-38 | a digit after a digit extends the current number |
| Day4.EndNumber | src/days/day_4.rs:39-49 | ending the current number adds it, giving the numbers of all runs so far |
| Common.RunsAppendNoDigits | src/days/day_4.rs:36 | trailing non-digits add no run |
| Day4.RunsPrependNoDigits | src/days/day_4.rs:36 | leading non-digits only move the runs |
| Common.RunsSnoc | src/days/day_4.rs:36-49 | the runs of a text with one more character: unchanged, extended, or one new run |
| Day4.PrependStep | src/days/day_4.rs:36 | leading non-digits keep shifting the runs as the text grows |
| Day4.PrependExtends | src/days/day_4.rs:36-38 | a digit that extends the last run keeps the runs of the padded text those of the text shifted by the padding |
| Day4.PrependStarts | src/days/day_4.rs:36-38 | a digit that opens a new run keeps the runs of the padded text those of the text shifted by the padding |
| Day4.TrimmedParts | src/days/day_4.rs:36 | the text is the whitespace before the trimmed slice, the slice, and the whitespace after it, and neither cut-off part has digits |
| Day4.ScanChar | src/days/day_4.rs:36-45 | one character of the loop keeps the set of numbers read so far and the number being read those of the text scanned so far |
| Day4.ShiftedValues | src/days/day_4.rs:36 | moved runs spell the same numbers |
| Day4.NumbersOfUntrimmed | src/days/day_4.rs:36 | trimming makes no difference: the numbers are those of the text's own digit runs |
| Day4.NumbersOfBlocks | src/days/day_4.rs:32-52 | a number is extracted iff some maximal block of digits spells it |
| Day4.RunIsBlock | src/days/day_4.rs:32-52 | each extracted number comes from a maximal block |
| Day4.BlockIsRun | src/days/day_4.rs:32-52 | each maximal block's number is extracted |
| Day4.BlocksMeet | src/days/day_4.rs:32-52 | two overlapping maximal blocks are the same block |
| Day4.DigitsInside | src/days/day_4.rs:37 | the characters of a maximal block are digits |
| Day4.ParseLine | src/days/day_4.rs:22-30 | a parsed card keeps the id it was given |
| Day4.Numbered | src/days/day_4.rs:10-14 | the cards of the lines are numbered 1, 2, ... in line order, with their match counts |
| Day4.ParseCardsLines | src/days/day_4.rs:10-14 | a line without its separators aborts the whole parse; otherwise card `k` is line `k` parsed with id `k + 1` |
| Day4.Pow2Positive | src/days/day_4.rs:56 | a power of two is at least one |
| Day4.CalcScoreDoubles | src/days/day_4.rs:54-60 | a card scores iff it has a match; one match scores 1 and each further match doubles the score |
| Day4.SumScoresZero | src/days/day_4.rs:16 | part one is 0 iff no card has a match |
| Day4.UpTo | src/days/day_4.rs:63-76 | the ids from 1 to `r` |
| Day4.SumCountsRemove | src/days/day_4.rs:78 | the sum of the counts does not depend on the order the ids are visited in |
| Day4.ContribMonotone | src/days/day_4.rs:68-76 | cards only ever win copies: a later state holds at least as many |
| Day4.ContribSettled | src/days/day_4.rs:68-76 | no card wins copies of an earlier id, so a count is settled once the cards before it are scored |
| Day4.ContribBeyond | src/days/day_4.rs:68-76 | no card wins an id beyond the reach of the cards before it |
| Day4.CountIsCopies | src/days/day_4.rs:62-79 | the final count of a card's id is its number of copies: the original plus one per copy of each earlier card that wins it |
| Day4.SumCountsInOrder | src/days/day_4.rs:62-79 | when no card wins past the last card, part two is the copies of every card added in card order |
| Day4.SumCountsUpTo | src/days/day_4.rs:78 | the counts of ids 1 up to `t` sum to the copies of the first `t` cards |
| Day4.CalcPart2 | src/days/day_4.rs:62-79 | the map of counts ends holding, for every id held, its number of copies, and the answer is their sum |
| Day4.ScoreCard | src/days/day_4.rs:68-76 | one pass of the outer loop: every id card `t` wins gets as many more as are held of card `t`, an id past the end first entered with one |
| Day4.InitialCounts | src/days/day_4.rs:63-66 | the initial map, one of each card, is the state before any card is scored |
| Day4.ReachAtLeast | src/days/day_4.rs:72 | the reach covers every card and every id a scored card wins |
| Day4.StartUpdating | src/days/day_4.rs:71-72 | the inner loop starts at the id after the card's own |
| Day4.UpdatingStep | src/days/day_4.rs:73 | adding the copies of card `t` to one more id keeps the inner loop's state |
| Day4.ScoredCard | src/days/day_4.rs:71-75 | after the inner loop, the map is the state after one more card |
| Day4.Exec | src/days/day_4.rs:9-20 | a malformed line or a part other than 1 or 2 has no answer; part one is the sum of the scores and part two the sum of the counts of all ids held |
| Day4.ExamplePart2 | src/days/day_4.rs:130-139 | the three test cards make seven cards in all |
| Day4.ExampleScore | src/days/day_4.rs:100-106 | a card with four matches scores 8 |
| Day4.RunValuesFirst | src/days/day_4.rs:36-49 | non-digits followed by one block of digits give exactly that block's number |
| Day4.RunValuesThen | src/days/day_4.rs:39-49 | a non-empty gap without digits and one more block of digits add exactly that block's number |
| Day4.OneTwoThree | src/days/day_4.rs:32-52 | the digits 1, 2 and 3 with non-empty gaps between them and any non-digits around them give {1, 2, 3} |
| Day4.FiveRuns | src/days/day_4.rs:32-52 | five blocks of digits with non-empty gaps without digits give exactly their five numbers |
| Day4.EightRuns | src/days/day_4.rs:32-52 | eight blocks of digits with non-empty gaps without digits give exactly their eight numbers |
| Day4.NumberOfDigits | src/days/day_4.rs:41 | a block of one or two digits is read as its decimal value |
| Day4.ExampleExtractNumbers | src/days/day_4.rs:108-116 | each of the six texts of the `extract_numbers` test gives {1, 2, 3} |
| Day4.NumbersOneThree | src/days/day_4.rs:93-98 | "1 3" gives {1, 3} |
| Common.SplitOnceAt | src/days/day_4.rs:23-24 | splitting once at a separator holding a character found nowhere else in it, after a text without that character, gives that text and the rest |
| Day4.MatchCountOf | src/days/day_4.rs:22-27 | a line whose name has no colon and whose ticket has no bar counts the numbers shared by its ticket and winning numbers |
| Day4.ExampleTwoMatches | src/days/day_4.rs:93-98 | the line of the first parsing test, tickets 1, 2, 3 and winning numbers 1, 3, parses to card 1 with two matches |
| Day4.TicketNumbers | src/days/day_4.rs:100-104 | the ticket "41 48 83 86 17" gives those five numbers |
| Day4.WinningNumbers | src/days/day_4.rs:100-104 | the winning numbers "83 86  6 31 17  9 48 53" give those eight numbers |
| Day4.FourMatches | src/days/day_4.rs:100-104 | the card line of the second parsing test has four matches |
| Day4.ParseCardsSome | src/days/day_4.rs:10-14 | lines that all have match counts read as the cards numbered from 1 with those counts |
| Day4.OneCard | src/days/day_4.rs:10-14 | one line with a match count reads as one card numbered 1 |
| Day4.OneCardLine | src/days/day_4.rs:10-14 | a source of one line without line breaks reads as the single card of that line |
| Day4.ExampleFourMatches | src/days/day_4.rs:100-106 | the card line of the second parsing test parses to card 1 with four matches, and as a whole source its part-one answer is 8 |
| Day5.MapOf | src/days/day_5.rs:66-74 | a mapping line "finish start length" stores the range (start, start + length) and moves start to finish and the stored end to finish + length |
| Day5.FlushConsistent | src/days/day_5.rs:60-64 | a header closes the open group only when it holds a map, keeping every map read so far |
| Day5.FeedConsistent | src/days/day_5.rs:54-76 | each line keeps the groups non-empty and the groups plus the open group equal to every map read so far |
| Day5.FeedAllConsistent | src/days/day_5.rs:54-76 | after any prefix of the lines, the parser's state holds every map read so far in non-empty groups |
| Day5.KindsSnoc | src/days/day_5.rs:54-76 | classifying one more line appends that line's kind |
| Day5.ParseInputGroups | src/days/day_5.rs:49-83 | parsing keeps every map in input order, split into non-empty groups, and the seeds of every seeds line in order |
| Day5.ExampleMapOf | src/days/day_5.rs:163-183 | the sample's lines "50 98 2" and "52 50 48" become the maps of the parsing test |
| Day5.ParseLines | src/days/day_5.rs:49-83 | the loop over the lines computes the parse, aborting where a number does not parse or a mapping line has fewer than three parts |
| Day5.FeedAllStops | src/days/day_5.rs:54-76 | a line that fails to parse aborts the whole parse |
| Day5.FeedAllNoneStays | src/days/day_5.rs:54-76 | an abort on a prefix is an abort of the whole input |
| Day5.Chomp | src/days/day_5.rs:100-155 | every range the chomping produces is ordered (at most one value backwards) |
| Day5.ChompPoint | src/days/day_5.rs:100-155 | a single value comes back as the single value the first map covering it (end included) sends it to |
| Day5.SizeConcat | src/days/day_5.rs:100-155 | the sizes of two lists of ranges add up |
| Day5.ChompKeepsAll | src/days/day_5.rs:100-155 | counting only: the chomped ranges together are at least as long as the seed range |
| Day5.ChompCovers | src/days/day_5.rs:100-155 | every value of the seed range comes out in some chomped range, either unshifted or shifted by the offset of a map of the group whose range holds it |
| Day5.ShiftLift | src/days/day_5.rs:113-148 | a shift a later map of the group can give a value is one the group can give it |
| Day5.ChompUntouched | src/days/day_5.rs:100-155 | a range no map of the group touches comes back unchanged |
| Day5.ProcessMap | src/days/day_5.rs:100-155 | the loop over the maps computes the chomping of the seed range |
| Day5.ExampleSingleNumbers | src/days/day_5.rs:185-212 | the six single seeds of the test go to 81, 14, 57, 13, 51 and 99 |
| Day5.ExampleInnerMapPassedOver | src/days/day_5.rs:113-152 | the map "52 50 50" (range 50 to 99, offset 2) lies strictly inside the seed range 40 to 120, so the range comes back whole as (40, 120), although the map sends the single value 60 to 62 |
| Day5.ExampleInclusiveEnd | src/days/day_5.rs:114 | the stored end of "50 98 2", 100, is treated as inside the range and moved to 52; 101 is not |
| Day5.Through | src/days/day_5.rs:90-92 | every range sent through one group stays ordered |
| Day5.ProcessMapsOf | src/days/day_5.rs:85-98 | every range the seed becomes after all groups is ordered |
| Day5.ProcessMapsPoint | src/days/day_5.rs:85-98 | a single seed stays a single value: its location after every group |
| Day5.ProcessMapsNone | src/days/day_5.rs:85-98 | with no groups the seed comes back alone |
| Day5.ProcessMaps | src/days/day_5.rs:85-98 | the two loops compute the seed through the groups, one group after the other |
| Day5.PointSeeds | src/days/day_5.rs:19 | part one reads each seed as a range of one value |
| Day5.PairSeeds | src/days/day_5.rs:27-35 | part two reads seeds in pairs as the inclusive range start to start + length - 1; an odd count has no answer |
| Day5.MinStart | src/days/day_5.rs:44-45 | the lowest start among the ranges, which exists iff there is a range |
| Day5.OutputsOfPoints | src/days/day_5.rs:21-25 | part one's outputs are the seeds' locations, in order |
| Day5.Part1IsLowestLocation | src/days/day_5.rs:16-47 | part one is the location of some seed and no larger than any seed's location |
| Day5.AllOutputs | src/days/day_5.rs:23-25 | the loop over the seeds collects every seed's outputs |
| Day5.Exec | src/days/day_5.rs:16-47 | the answers of the whole input, with no answer where the source panics |
| Day5.ExampleExec | src/days/day_5.rs:229-234 | the test's text "seeds: 1 10", a blank line, "seed-to-location map:" and "10 1 1" has part one 10 (and part two 2) |
| Day5.ExampleExecLines | src/days/day_5.rs:54 | splitting the test's text on newlines gives its four lines, the blank one included |
| Day5.FourLines | src/days/day_5.rs:54 | four lines written with newlines between them are the join of the four lines |
| Day5.ExampleExecParse | src/days/day_5.rs:49-83 | the test's four lines parse to the seeds 1, 10 and one group holding the one map |
| Day5.ParseFour | src/days/day_5.rs:49-83 | a seeds line, a blank line, a header and a mapping line parse to those seeds and one group holding that map, closed at the end of the input |
| Day5.ThenFour | src/days/day_5.rs:54-76 | fed in turn, those four kinds of line leave the seeds and an open group holding the map; the header closes nothing since the group is still empty |
| Day5.FeedFour | src/days/day_5.rs:54-76 | four lines are fed one after the other, from the empty state |
| Day5.ExampleSeedsLine | src/days/day_5.rs:55-59 | "seeds: 1 10" is a seeds line with the numbers 1 and 10 |
| Day5.ExampleHeaderLine | src/days/day_5.rs:60 | "seed-to-location map:" is a header |
| Day5.ExampleMapLine | src/days/day_5.rs:66-74 | "10 1 1" is a mapping line for the range 1 to 2 with offset 9 |
| Day5.ExampleBlankLine | src/days/day_5.rs:54-76 | the empty line is skipped |
| Day5.ExampleAnswers | src/days/day_5.rs:229-234 | the seeds 1, 10 with the one map "10 1 1" have part one 10 and part two 2 |
| Day5.ExampleLocate | src/days/day_5.rs:229-234 | with the one map "10 1 1" seed 1 goes to 10 and seed 10 stays 10 |
| Day5.ExamplePointSeeds | src/days/day_5.rs:229-234 | the single seeds 1 and 10 have lowest location 10 |
| Day5.ExamplePairSeeds | src/days/day_5.rs:27-46 | the seeds 1 10 pair into the one inclusive range from 1 to 10, whose lowest location is 2 |
| Day6.EvaluateOptions | src/days/day_6.rs:13-22 | the loop counts exactly the holds below the race time that travel further than the record |
| Day6.WinningHoldsBound | src/days/day_6.rs:13-22 | at most one winning hold per millisecond, and none in a race of no time |
| Day6.CountBeatsBound | src/days/day_6.rs:15-19 | counting over `n` holds gives at most `n` |
| Day6.WinningHoldsSymmetric | src/days/day_6.rs:16 | holding for `x` wins iff holding for `time - x` does, and holding for 0 never wins |
| Day6.CountBeatsIsCardinality | src/days/day_6.rs:15-19 | counting one hold at a time gives the size of the set of winning holds |
| Day6.ExampleRaces | src/days/day_6.rs:28-33 | the races (7, 9), (15, 40) and (30, 200) have 4, 8 and 9 winning holds |
| Day6.ExampleShortRace | src/days/day_6.rs:28-33 | the race of time 7 and record 9 has 4 winning holds |
| Day6.ExampleMiddleRace | src/days/day_6.rs:28-33 | the race of time 15 and record 40 has 8 winning holds |
| Day6.ExampleLongRace | src/days/day_6.rs:28-33 | the race of time 30 and record 200 has 9 winning holds |
| Day6.Exec | src/days/day_6.rs:1-11 | part one is the product of the winning-hold counts of the four built-in races; part two the count for the one long race |
| Day7.CardValue | src/days/day_7.rs:119-124 | a card has a value iff it is a face in the table or a decimal digit, and a digit is worth itself |
| Day7.ParseLine | src/days/day_7.rs:115-134 | a parsed hand is in Standard mode and has exactly five cards |
| Day7.ParseLineCards | src/days/day_7.rs:115-134 | the hand text before the first space has five characters, each card is that character's value, and the bet is the number after the space |
| Day7.Cards | src/days/day_7.rs:51-64 | in Joker mode every jack (11) counts as 1; otherwise the cards are unchanged |
| Day7.Counts | src/days/day_7.rs:67-69 | one (count, value) pair for each value 1 to 14 |
| Day7.Largest | src/days/day_7.rs:73-77 | the pair `counts.sort(); counts.reverse()` puts first (or second, skipping the first's value): a pair of the list no other pair is above, or (0, 0) |
| Day7.Classify | src/days/day_7.rs:85-93 | the rank is between 0 and 6 |
| Day7.HandRank | src/days/day_7.rs:66-94 | the rank of any hand is between 0 and 6 |
| Day7.JokerRank | src/days/day_7.rs:76-93 | adding the jokers to the largest count, or to the second when the largest is the jokers', ranks between 0 and 6 |
| Day7.MultBound | src/days/day_7.rs:68 | two different values together appear at most as often as there are cards |
| Day7.MultAt | src/days/day_7.rs:68 | a card's own value appears at least once |
| Day7.MultAbsent | src/days/day_7.rs:68 | a value no card has appears zero times |
| Day7.MultOther | src/days/day_7.rs:77 | when two values do not fill the hand, some card has a third value |
| Day7.TopTwoOf | src/days/day_7.rs:73-77 | the first pair is a largest count with its value and the second the largest count among the other values |
| Day7.StandardRank | src/days/day_7.rs:66-94 | a Standard hand of real cards is ranked by its kind: five, four, full house, three, two pairs, one pair, high card as 6 down to 0 |
| Day7.RankOfCounts | src/days/day_7.rs:85-93 | the kind of a five-card hand depends only on its two largest counts |
| Day7.Replace | src/days/day_7.rs:55-59 | every card `a` turned into `b`, the others kept |
| Day7.MultReplace | src/days/day_7.rs:55-59 | turning `a` into `b` moves the count of `a` onto `b` |
| Day7.HandRankTop | src/days/day_7.rs:76-93 | the jokers are added to the largest count, or to the second largest when the jokers themselves come first |
| Day7.KindTop | src/days/day_7.rs:85-93 | the kind of a hand in terms of its two largest counts |
| Day7.JokersJoinLargest | src/days/day_7.rs:71-83 | when the jacks do not outnumber the largest other value `v`, the Joker-mode rank is the kind of the hand with every jack turned into `v` |
| Day7.JokerCounts | src/days/day_7.rs:71-83 | in that case the jokers never come first, and the counts classify as those of the replaced hand |
| Day7.JokerMults | src/days/day_7.rs:51-69 | real cards have no 1; turning the jacks into jokers moves their count to 1, and turning them into another value `v` adds it to `v`'s count |
| Day7.JokerSecond | src/days/day_7.rs:77-83 | the second largest count is classified the same with jokers counted apart or merged into `v` |
| Day7.CompareByKey | src/days/day_7.rs:97-113 | comparing hands is comparing the rank followed by the cards as parsed, lexicographically |
| Day7.LexEqual | src/days/day_7.rs:101-111 | the card loop finds no difference iff the cards are equal |
| Day7.LexReverse | src/days/day_7.rs:101-111 | swapping the hands reverses the card comparison |
| Day7.LexTransitive | src/days/day_7.rs:101-111 | the card comparison is transitive |
| Day7.CompareReverse | src/days/day_7.rs:97-113 | swapping the hands reverses the comparison, and hands compare equal iff they have the same rank and the same cards |
| Day7.CompareTransitive | src/days/day_7.rs:97-113 | the comparison is transitive, so it is a total preorder fit for sorting |
| Day7.SortCards | src/days/day_7.rs:97-113 | the comparison by rank, then by the first differing card |
| Day7.TieBreak | src/days/day_7.rs:101-111 | the loop returns the comparison of the first pair of cards that differ, or Equal when none do |
| Day7.InsertAt | src/days/day_7.rs:14 | an insertion point within the list |
| Day7.Insert | src/days/day_7.rs:14 | inserting adds exactly the one hand |
| Day7.SortBy | src/days/day_7.rs:14 | sorting keeps exactly the same hands, each as often as before; its order is `SortBySorted` and its stability `SortByStable` |
| Day7.InsertAtBounds | src/days/day_7.rs:14 | hands before the insertion point are not above the key and hands after it are above it |
| Day7.LexAbove | src/days/day_7.rs:101-111 | a hand above `a` and not above `c` puts `c` above `a` |
| Day7.InsertSorted | src/days/day_7.rs:14 | inserting into a sorted list keeps it sorted |
| Day7.SortBySorted | src/days/day_7.rs:14 | the insertion sort returns a sorted list |
| Day7.SortHandsSorted | src/days/day_7.rs:14-26 | the sorted hands are a permutation of the hands, in the order of the comparison, and the hands of each class of equal keys keep their order, as the stable `sort_by` promises |
| Day7.CompareEqualKey | src/days/day_7.rs:97-113 | two hands compare `Equal` exactly when they have the same key, so the key classes are the classes of equal hands |
| Day7.WithKeyConcat | src/days/day_7.rs:14 | the hands of one class in a joined list are those of the first part followed by those of the second |
| Day7.WithKeyHas | src/days/day_7.rs:14 | a class is non-empty exactly when some hand has that key |
| Day7.InsertStable | src/days/day_7.rs:14 | inserting a hand into a sorted list puts it last in its class and leaves every other class as it was |
| Day7.SortByStable | src/days/day_7.rs:14 | the sort is stable: every class of hands with equal keys is in the same order before and after |
| Day7.StableUnique | src/days/day_7.rs:14 | two sorted lists whose classes are equal, each in the same order, are the same list |
| Day7.SortHandsUnique | src/days/day_7.rs:14-26 | any sorted arrangement of the hands that keeps equal hands in their order is the one the sort gives, so the winnings are fixed by the input |
| Day7.WithJokers | src/days/day_7.rs:22-24 | the same hands in the same order, each in Joker mode |
| Day7.Exec | src/days/day_7.rs:6-35 | the winnings of the hands sorted in Standard mode, then of the same list switched to Joker mode and sorted again |
| Day7.SetJokers | src/days/day_7.rs:22-24 | the loop switches every hand to Joker mode and changes nothing else |
| Day7.ExampleFive | src/days/day_7.rs:174-182 | 2 2 2 2 2 ranks 6 |
| Day7.ExampleFour | src/days/day_7.rs:183-191 | 2 2 3 2 2 ranks 5 |
| Day7.ExampleFullHouse | src/days/day_7.rs:192-200 | 2 13 2 2 13 ranks 4 |
| Day7.ExampleThree | src/days/day_7.rs:201-209 | 2 2 2 13 10 ranks 3 |
| Day7.ExampleTwoPairs | src/days/day_7.rs:210-218 | 2 2 7 5 5 ranks 2 |
| Day7.ExampleOnePair | src/days/day_7.rs:219-227 | 2 2 7 5 9 ranks 1 |
| Day7.ExampleHighCard | src/days/day_7.rs:228-236 | 2 10 7 5 9 ranks 0 |
| Day7.ExampleJokersOnTop | src/days/day_7.rs:76-83 | with three jacks as jokers and a pair of twos the jokers join the pair's count, so the rank is 3 and not five of a kind |
| Day7.MultOf5 | src/days/day_7.rs:68 | the count of a value among five cards, written out |
| Day7.ParseFive | src/days/day_7.rs:115-134 | five card characters, a space and a bet parse to the Standard hand of those card values and that bet |
| Day7.ExampleParseDigits | src/days/day_7.rs:148-158 | `12345 678` parses to the Standard hand 1 2 3 4 5 with bet 678 |
| Day7.ExampleParseFaces | src/days/day_7.rs:160-170 | `TJA4K 678` parses to the Standard hand 10 11 14 4 13 with bet 678 |
| Day7.RankFiveOf | src/days/day_7.rs:85-86 | a Standard hand with five cards of one value ranks 6 |
| Day7.RankFourOf | src/days/day_7.rs:85-87 | a Standard hand with four cards of one value ranks 5 |
| Day7.RankFullHouseOf | src/days/day_7.rs:85-88 | a Standard hand with three of one value and two of another ranks 4 |
| Day7.RankOnePairOf | src/days/day_7.rs:85-91 | a Standard hand with one pair and every other value at most once ranks 1 |
| Day7.SortByDescending | src/days/day_7.rs:14 | hands given strictly from the strongest down come out of the sort in exactly the reverse order |
| Day7.SortTestDescending | src/days/day_7.rs:240-277 | the seven hands of the sorting test, whatever their bets, are given strictly from the strongest down |
| Day7.ExampleSortHands | src/days/day_7.rs:239-288 | sorting the seven hands of the test puts their bets in reverse order, so bets 1 to 7 come out 7 down to 1 |
| Day8.FirstArrivalUnique | src/days/day_8.rs:25-45 | the number of moves until the walk first arrives is unique |
| Day8.WalkStuck | src/days/day_8.rs:32 | once the walk stands on a node with no entry it stays failed |
| Day8.CalcSteps | src/days/day_8.rs:25-45 | the count returned is the first positive number of moves after which the walk, using the instructions cyclically, stands on a name ending with `end`; no answer means no arrival within the bound or an empty instruction list |
| Day8.LcmVec | src/days/day_8.rs:59-61 | the fold of positive counts from 1 is positive |
| Day8.DividesAntisymmetric | src/days/day_8.rs:47-57 | two natural numbers dividing each other are equal |
| Day8.GcdDivides | src/days/day_8.rs:47-53 | Euclid's result divides both arguments |
| Day8.GcdGreatest | src/days/day_8.rs:47-53 | every common divisor divides Euclid's result |
| Day8.GcdPositive | src/days/day_8.rs:47-53 | the result is positive unless both arguments are zero |
| Day8.GcdBezout | src/days/day_8.rs:47-53 | the result is an integer combination of the arguments |
| Day8.LcmForm | src/days/day_8.rs:55-57 | the product divided by the gcd is the first argument times the second's cofactor |
| Day8.LcmTimesGcd | src/days/day_8.rs:55-57 | the gcd is positive and times the lcm gives the product of the arguments |
| Day8.LcmPositive | src/days/day_8.rs:55-57 | the lcm of positive numbers is positive |
| Day8.LcmMultiple | src/days/day_8.rs:55-57 | the lcm is a multiple of both arguments |
| Day8.LcmLeast | src/days/day_8.rs:55-57 | the lcm divides every common multiple |
| Day8.LcmVecMultiple | src/days/day_8.rs:59-61 | every entry divides the folded result |
| Day8.LcmVecLeast | src/days/day_8.rs:59-61 | the folded result divides every common multiple of the entries |
| Day8.LcmVecPermutation | src/days/day_8.rs:59-61 | the fold does not depend on the order of the entries, so any hash-map order gives the same answer |
| Day8.ParseLine | src/days/day_8.rs:74-76 | a node line is read iff it has at least 15 characters, where the slicing would otherwise panic |
| Day8.ParseFormatted | src/days/day_8.rs:74-76 | reading "AAA = (BBB, CCC)" recovers the three names it was written with |
| Day8.ParseLines | src/days/day_8.rs:66 | every line is read iff every line is long enough, each entry being its line read |
| Day8.Collect | src/days/day_8.rs:66 | the map's keys are the names of the entries, and a name given twice keeps its last entry |
| Day8.Instructions | src/days/day_8.rs:69 | one instruction per character: 0 exactly for 'L', otherwise 1 |
| Day8.ParseInstructions | src/days/day_8.rs:63-72 | parsing fails without a blank line, and otherwise fails exactly when a node line is too short |
| Day8.LcmVecOfArrivals | src/days/day_8.rs:9-20 | the fold over the counts of all the starts, visited in any order, is their least common multiple |
| Day8.Exec | src/days/day_8.rs:5-23 | part one is the first arrival from AAA at ZZZ; part two the least common multiple of the first arrivals at a name ending in Z from every name ending in A; no answer only when the input does not parse, there is no instruction, or the walk from AAA or from some name ending in A makes no arrival within the bound |
| Day8.ProgressStep | src/days/day_8.rs:15-18 | walking one more start keeps the loop's record of starts and counts |
| Day8.AllStarts | src/days/day_8.rs:9-20 | the loop over the starts, in any order, folds their first-arrival counts into their least common multiple; no answer only when the walk from some start makes no arrival within the bound |
| Day8.ExampleSplitOnce | src/days/day_8.rs:96-101 | the test input splits at the blank line into "LRLR" and the node line |
| Day8.ExampleNodeLine | src/days/day_8.rs:96-101 | the node line reads as AAA going to BBB and CCC |
| Day8.ExampleNodeParse | src/days/day_8.rs:96-101 | the single node line parses to its entry |
| Day8.ExampleParse | src/days/day_8.rs:96-101 | "LRLR" then "AAA = (BBB, CCC)" parses to the instructions 0 1 0 1 and the one-entry node map |
| Day8.ExampleInstructions | src/days/day_8.rs:96-101 | "LRLR" reads as the instructions 0 1 0 1 |
| Day8.ExampleCollect | src/days/day_8.rs:96-101 | the one entry AAA to (BBB, CCC) collects into the one-key map |
| Day8.ExampleNodeSplit | src/days/day_8.rs:96-101 | the node part has the one line "AAA = (BBB, CCC)" |
| Day9.Diffs | src/days/day_9.rs:29-32 | one fewer value than the input, each the difference of two consecutive values |
| Day9.UniquesSingleton | src/days/day_9.rs:34 | the set of differences has exactly one element iff the differences are non-empty and all equal |
| Day9.PredictNextStops | src/days/day_9.rs:34-38 | the stopping test on the set of differences is the same as all differences being equal |
| Day9.PredictConstantStep | src/days/day_9.rs:38-39 | with a constant step the prediction is the last value plus that step |
| Day9.PredictRecurses | src/days/day_9.rs:40-43 | otherwise the prediction is the last value plus the prediction for the differences |
| Day9.DiffsOf | src/days/day_9.rs:29-32 | the differences are exactly the list of each value's successor minus it |
| Day9.PredictTwoLevels | src/days/day_9.rs:34-43 | when the differences are not all equal but their differences are one constant step, the prediction is the last value plus the last difference plus the step |
| Day9.Sample | src/days/day_9.rs:27-44 | the first `n` values of a polynomial given by its leading differences |
| Day9.DiffsOfSample | src/days/day_9.rs:29-32 | the differences of a polynomial's values are the values of the polynomial of its differences |
| Day9.VanishingPoly | src/days/day_9.rs:27-44 | a polynomial of degree below `d` that vanishes at `d` consecutive points vanishes at the next |
| Day9.ZeroPoly | src/days/day_9.rs:27-44 | the polynomial with no coefficients is zero everywhere |
| Day9.ConstantPoly | src/days/day_9.rs:38-39 | a polynomial that is constant on more points than its degree stays constant at the next one |
| Day9.PredictPolynomial | src/days/day_9.rs:27-44 | for the values of any polynomial with enough samples, the prediction is the polynomial's next value |
| Day9.ExampleLinear | src/days/day_9.rs:79-89 | 1 2 3 4 predicts 5; 0 3 6 9 12 15 predicts 18 |
| Day9.ExampleQuadratic | src/days/day_9.rs:91-95 | 1 3 6 10 15 21 predicts 28 |
| Day9.ExampleCubic | src/days/day_9.rs:96-100 | 10 13 16 21 30 45 predicts 68 |
| Day9.ExampleQuadraticDiffs | src/days/day_9.rs:96-100 | the differences of the cubic example, 3 3 5 9 15, predict 23 |
| Day9.Reverse | src/days/day_9.rs:20-21 | the same values in the opposite order |
| Day9.ParseLine | src/days/day_9.rs:17-25 | the line parses iff every word is an integer, and then gives the integers in order or reversed |
| Day9.ExampleParseLine | src/days/day_9.rs:61-64 | "1 2 3" read forwards parses to [1, 2, 3] |
| Day9.ExampleWords | src/days/day_9.rs:18 | "1 2 3" is the words "1", "2" and "3" |
| Day9.WordsThree | src/days/day_9.rs:18 | three whitespace-free words with single spaces between them are those three words |
| Day9.ExampleNumbers | src/days/day_9.rs:18 | the words "1", "2" and "3" parse to 1, 2 and 3 |
| Day9.Exec | src/days/day_9.rs:3-15 | both answers exist iff every line parses and predicts in both directions |
| Day10.PipeSides | src/days/day_10.rs:152-155 | a cell is the start exactly on 'S', and each pipe symbol opens its two sides (`|` north-south, `-` east-west, `L` north-east, `J` north-west, `7` south-west, `F` east-south) |
| Day10.LinePipes | src/days/day_10.rs:157-181 | one pipe per character of the line, at its own column |
| Day10.LineStart | src/days/day_10.rs:157-181 | there is a start exactly when the line holds 'S', and then it is the pipe of an 'S' cell |
| Day10.ParseLine | src/days/day_10.rs:157-181 | the mapping loop yields the line's pipes and its last start |
| Day10.ParseLines | src/days/day_10.rs:7-15 | the loop over the lines gathers every line's pipes in order and keeps the start of the last line that has one |
| Day10.BuildMap | src/days/day_10.rs:17-20 | collecting the pipes keyed by their cells gives the map of the pipes, a later pipe replacing an earlier one |
| Day10.Target | src/days/day_10.rs:145-150 | each cardinal offset is one orthogonal step away |
| Day10.GetConnections | src/days/day_10.rs:101-134 | the loop over the four cardinals gathers exactly the pipe's connections |
| Day10.ConnectionsAre | src/days/day_10.rs:101-134 | a connection is a neighbour of the map one step away, open towards the pipe, with the pipe open towards it or the start, and every such neighbour is one |
| Day10.ConnectionsMutual | src/days/day_10.rs:101-134 | in a map keyed by position, connections between pipes other than the start go both ways |
| Day10.WalkExtend | src/days/day_10.rs:66-86 | a walk followed by a connection of its end is a walk |
| Day10.ClosedHoldsReachable | src/days/day_10.rs:66-86 | a set holding the start and closed under connections holds every reachable pipe |
| Day10.PushUnseen | src/days/day_10.rs:77-82 | the unseen neighbours are marked seen and pushed, each reachable, with no pipe pushed twice |
| Day10.ExploredPush | src/days/day_10.rs:77-82 | pushing an unseen neighbour of a seen pipe keeps every seen pipe reachable from the start along a recorded path |
| Day10.SeenGrows | src/days/day_10.rs:78-79 | marking an unseen pipe seen shrinks the set of unseen pipes by one, so the search ends |
| Day10.MaxPipeDistance | src/days/day_10.rs:66-86 | the seen set is exactly the pipes reachable from the start, each pushed once, and the distance is half its size |
| Day10.LastStart | src/days/day_10.rs:7-15 | no start exactly when no line holds 'S'; otherwise the pipe of some 'S' cell |
| Day10.MapOfConcat | src/days/day_10.rs:17-20 | collecting joined lists keys both, the later entry winning |
| Day10.MapOfLine | src/days/day_10.rs:17-20 | the map of one line is keyed by its cells, each holding its pipe |
| Day10.MapOfGrid | src/days/day_10.rs:7-20 | the map's keys are exactly the cells of the grid, each holding the pipe of its character |
| Day10.GridPositioned | src/days/day_10.rs:17-20 | every pipe of the map sits under its own position |
| Day10.Exec | src/days/day_10.rs:3-64 | part one is zero without a start and otherwise half the number of pipes reachable from it; part two is zero |
| Day10.ExamplePipeF | src/days/day_10.rs:188-206 | 'F' at the origin opens east and south only |
| Day10.ExampleConnections | src/days/day_10.rs:208-261 | a horizontal pipe between two open neighbours connects to both |
| Day10.ClosedLink | src/days/day_10.rs:101-134 | a link from one of a closed list of cells, the start included, leads to one of those cells |
| Day10.ClosedPipe | src/days/day_10.rs:101-134 | every connection of the pipe of a closed list of cells is the pipe of one of those cells |
| Day10.SpannedReachable | src/days/day_10.rs:66-86 | every cell of a list linked step by step from its first cell holds a pipe reachable from the first |
| Day10.PipesCount | src/days/day_10.rs:17-20 | distinct cells of the grid hold as many distinct pipes as there are cells |
| Day10.LoopClosed | src/days/day_10.rs:66-86 | the pipes of a closed list of cells hold all their own connections |
| Day10.LoopCount | src/days/day_10.rs:17-20 | a closed list of distinct cells holds as many pipes as cells |
| Day10.GridLoop | src/days/day_10.rs:66-86 | a closed, linked, distinct list of cells starting at a start is exactly the set of pipes the walk from that start reaches, one pipe per cell |
| Day10.SampleOneLoop | src/days/day_10.rs:264-272 | the pipes reachable from the start of the first sample are the eight of its loop |
| Day10.SampleTwoLoop | src/days/day_10.rs:275-283 | the pipes reachable from the start of the second sample are the sixteen of its loop |
| Day10.SampleOneLines | src/days/day_10.rs:7 | the first sample's source splits into its five rows |
| Day10.SampleTwoLines | src/days/day_10.rs:7 | the second sample's source splits into its five rows |
| Day10.SampleOneStartCell | src/days/day_10.rs:7-15 | the start found in the first sample is the 'S' in column 1 of row 1 |
| Day10.SampleTwoStartCell | src/days/day_10.rs:7-15 | the start found in the second sample is the 'S' in column 0 of row 2 |
| Day10.SampleOneAnswer | src/days/day_10.rs:264-272 | any set holding exactly the pipes reachable in the first sample has half-size 4 |
| Day10.SampleTwoAnswer | src/days/day_10.rs:275-283 | any set holding exactly the pipes reachable in the second sample has half-size 8 |
| Day10.ExampleSampleOne | src/days/day_10.rs:263-272 | `exec` on the first sample gives 4 for part one (and 0 for part two) |
| Day10.ExampleSampleTwo | src/days/day_10.rs:274-283 | `exec` on the second sample gives 8 for part one (and 0 for part two) |
| Day11.SpaceOf | src/days/day_11.rs:104-108 | '#' is a galaxy, '.' is empty space, and any other character has none (the panic) |
| Day11.ParseLine | src/days/day_11.rs:102-110 | a line parses iff it holds only '.' and '#', one cell per character, a galaxy exactly at '#' |
| Day11.ParseGrid | src/days/day_11.rs:10-13 | one row per line, each its line parsed; no map only when some line does not parse |
| Day11.Distance | src/days/day_11.rs:50-52 | the Manhattan distance is zero exactly between equal points |
| Day11.DistanceSymmetric | src/days/day_11.rs:50-52 | the distance does not depend on the order of the points |
| Day11.DistanceTriangle | src/days/day_11.rs:50-52 | the distance obeys the triangle inequality |
| Day11.BlankCount | src/days/day_11.rs:68-72 | at most one blank line is counted per line |
| Day11.FindBlanks | src/days/day_11.rs:60-66 | the list holds exactly the indices of the lines without a galaxy, from the last line to the first |
| Day11.Transpose | src/days/day_11.rs:90-100 | pushing every cell onto the row of its column gives the transpose, with as many rows as the matrix has; a row longer than that has none (the out-of-bounds panic) |
| Day11.TransposeRectangle | src/days/day_11.rs:90-100 | for rows of one width `w` no more than the height, the transpose swaps the indices, the rows past `w` are empty, and a row of the transpose is blank iff its column is |
| Day11.ColumnBeyond | src/days/day_11.rs:93-97 | a column past every row's end collects nothing |
| Day11.Located | src/days/day_11.rs:20-31 | the map's keys are exactly the galaxy cells, each entered under its own position |
| Day11.Locate | src/days/day_11.rs:20-31 | the nested loop enters every galaxy cell under its own position, and nothing else |
| Day11.Shifted | src/days/day_11.rs:54-88 | the keys stay; only the coordinate across the lines moves, and never backwards |
| Day11.Shift | src/days/day_11.rs:73-86 | a galaxy moves only across the lines, and never backwards |
| Day11.Galaxies.constructor | src/days/day_11.rs:20 | the galaxies start at the positions they were located at |
| Day11.Galaxies.InsertBlanks | src/days/day_11.rs:54-88 | every galaxy the scan meets moves across the lines by `dilateBy` for each blank line up to and including its own line; the map is updated in place and nothing else changes |
| Day11.Galaxies.ShiftLine | src/days/day_11.rs:73-86 | the scan of one line moves each galaxy on it by `dilateBy` for each blank line up to and including it and leaves the others |
| Day11.ScanCell | src/days/day_11.rs:73-86 | passing one cell of the scan moves the galaxy keyed there, if any, and nothing else |
| Day11.ScanLine | src/days/day_11.rs:69-87 | passing the end of a line is starting the next one |
| Day11.ScanDone | src/days/day_11.rs:69-87 | past the last line every key the scan meets has moved |
| Day11.SumPairs | src/days/day_11.rs:37-47 | the nested loop adds the distance of every galaxy to every galaxy after it in the list |
| Day11.Remove | src/days/day_11.rs:41-45 | taking one element out shortens the list by one |
| Day11.RemoveMatching | src/days/day_11.rs:41-45 | removing the first element of a permutation from where it sits leaves a permutation of the rest |
| Day11.RowRemove | src/days/day_11.rs:42-44 | the distances from a point to a list split into one element and the rest |
| Day11.RowPermutation | src/days/day_11.rs:42-44 | the distances from one point do not depend on the order of the others |
| Day11.PairwiseRemove | src/days/day_11.rs:41-45 | the pair sum splits into one element's distances and the pair sum of the rest |
| Day11.PairwisePermutation | src/days/day_11.rs:37-47 | the pair sum does not depend on the order of the list, so the hash-map order does not matter |
| Day11.Image | src/days/day_11.rs:39 | the positions of the keys, in the order of the keys |
| Day11.DistinctMultiset | src/days/day_11.rs:39 | a list without repeats holds each element once |
| Day11.ImageConcat | src/days/day_11.rs:39 | the positions of joined key lists are the joined positions |
| Day11.PermutationKeys | src/days/day_11.rs:39 | a permutation of keys in the map is in the map |
| Day11.ImagePermutation | src/days/day_11.rs:39 | two orders of the same keys give the same positions up to order |
| Day11.PickFirst | src/days/day_11.rs:39 | the first element of a permutation occurs in the other list with the rest a permutation of the tail |
| Day11.ImageSplit | src/days/day_11.rs:39 | the step of the permutation argument for positions |
| Day11.MultisetMiddle | src/days/day_11.rs:39 | an element inserted in the middle or in front gives the same elements |
| Day11.Values | src/days/day_11.rs:39 | every position of the map, once per key, in some order of the keys |
| Day11.RowGalaxies | src/days/day_11.rs:23-30 | the galaxies of a row, exactly, left to right |
| Day11.GalaxiesOf | src/days/day_11.rs:22-31 | the galaxies of the grid, exactly, row by row and left to right |
| Day11.GalaxiesDistinct | src/days/day_11.rs:22-31 | no galaxy is listed twice |
| Day11.DistinctSameElements | src/days/day_11.rs:39 | two listings without repeats of the same points are permutations of each other |
| Day11.Expansion | src/days/day_11.rs:33-35 | after both passes there is one entry per galaxy of the grid |
| Day11.Calculate | src/days/day_11.rs:18-48 | the result is the sum of the distances between every two expanded galaxies, whatever order the map hands them out; none where the transpose panics |
| Day11.BlankColumns | src/days/day_11.rs:33-35 | at most one blank column is counted per column |
| Day11.BlankCountTranspose | src/days/day_11.rs:34-35 | blank rows of the transpose are blank columns of the grid |
| Day11.Expanded | src/days/day_11.rs:33-35 | on a rectangle each galaxy moves right by `dilateBy` per blank column left of it and down by `dilateBy` per blank row above it |
| Day11.ExpansionAt | src/days/day_11.rs:33-35 | a galaxy is shifted by the pass over the rows and then by the pass over the transposed grid |
| Day11.ShiftedAt | src/days/day_11.rs:73-86 | a key's new position is its shift |
| Day11.RowPass | src/days/day_11.rs:33 | the first pass moves a galaxy down past the blank rows above it |
| Day11.ColumnPass | src/days/day_11.rs:34-35 | the second pass moves it right past the blank columns left of it |
| Day11.Exec | src/days/day_11.rs:9-16 | both parts are pair sums of the expanded galaxies, with each blank line adding 1 and 999999; none where a line does not parse or the transpose panics |
| Day11.ExampleParseLine | src/days/day_11.rs:118-124 | ".#." parses to empty, galaxy, empty |
| Day11.ExampleInsertBlanks | src/days/day_11.rs:126-137 | two blank rows above the galaxy at (1, 2) move it to (1, 4) |
| Day11.ExampleTranspose | src/days/day_11.rs:139-151 | the test's two-by-two grid transposes as expected |
| Day12.Solve | src/days/day_12.rs:25-65 | on a row of only '#', '.' and '?' the count never aborts; another character aborts as the source panics |
| Day12.Prefixed | src/days/day_12.rs:57-58 | each filled row with one more spring in front |
| Day12.FillsSound | src/days/day_12.rs:56-60 | every listed row is a filling of the row: each '?' replaced by '#' or '.', the rest kept |
| Day12.FillsComplete | src/days/day_12.rs:56-60 | every filling of the row is listed |
| Day12.FillsDistinct | src/days/day_12.rs:56-60 | no filling is listed twice |
| Day12.GroupsFromOpen | src/days/day_12.rs:39-46 | an open group shows up first, at least as long as it already is |
| Day12.MatchingConcat | src/days/day_12.rs:59 | counting matching rows over two lists adds up |
| Day12.MatchingDamaged | src/days/day_12.rs:39-46 | a damaged spring in front extends the open group |
| Day12.MatchingOperational | src/days/day_12.rs:47-55 | an operational spring closes the open group, which must then be the next expected length |
| Day12.MatchingTooLong | src/days/day_12.rs:40-42 | no row matches once the open group is longer than the next expected length |
| Day12.SumPositive | src/days/day_12.rs:27-30 | positive group lengths sum to zero iff there are none |
| Day12.SumNat | src/days/day_12.rs:27 | the sum of the group lengths is never negative |
| Day12.SolveCountsEmpty | src/days/day_12.rs:28-30 | at the end of the row the count is 1 exactly when no damaged spring is still expected |
| Day12.SolveCounts | src/days/day_12.rs:25-65 | in every state of the recursion the count is the number of fillings of the rest of the row whose groups complete the expected groups |
| Day12.StepDamaged | src/days/day_12.rs:39-46 | the '#' case keeps that count |
| Day12.StepOperational | src/days/day_12.rs:47-55 | the '.' case keeps that count |
| Day12.StepUnknown | src/days/day_12.rs:56-60 | the '?' case adds the counts of its two fillings |
| Day12.SolveUnknown | src/days/day_12.rs:56-60 | an unknown spring is counted as damaged plus as operational |
| Day12.SolveUnknownSome | src/days/day_12.rs:56-60 | when both fillings of an unknown spring count, the count is their sum |
| Day12.MatchingUnknown | src/days/day_12.rs:56-60 | the fillings of a row starting with '?' that match split into those starting with '#' and those starting with '.' |
| Day12.FillsUnknown | src/days/day_12.rs:56-60 | the fillings of a row starting with '?' are those starting with '#' followed by those starting with '.' |
| Day12.SolveIsArrangements | src/days/day_12.rs:25-65 | for a valid row and positive group lengths, the count is the number of fillings whose damaged groups are exactly those lengths |
| Day12.ParseLine | src/days/day_12.rs:67-70 | a line parses iff it has a space and comma-separated numbers after it; the row is the text before the first space |
| Day12.Copies | src/days/day_12.rs:17 | `n` copies of a value |
| Day12.Repeat | src/days/day_12.rs:18 | `n` repetitions of a sequence, `n` times as long |
| Day12.UnfoldShape | src/days/day_12.rs:17-18 | the unfolded row is the row five times joined by '?', and the group lengths five times over |
| Day12.ValidConcat | src/days/day_12.rs:17 | joining valid rows gives a valid row |
| Day12.PositiveConcat | src/days/day_12.rs:18 | joining positive group lists gives a positive list |
| Day12.UnfoldValid | src/days/day_12.rs:13-20 | unfolding keeps a row valid and its group lengths positive |
| Day12.SumCountsArrangements | src/days/day_12.rs:4-23 | on well-formed records each part is the total number of arrangements, of the rows or of the unfolded rows |
| Day12.ExecArrangements | src/days/day_12.rs:4-23 | both answers are the totals of arrangements, folded and unfolded |
| Day12.ExampleParse | src/days/day_12.rs:84-87 | "#.#.### 1,1,3" parses to the row and the groups 1, 1, 3 |
| Day12.ExampleGroups | src/days/day_12.rs:84-87 | "1,1,3" reads as 1, 1, 3 |
| Day12.ExampleGroupsSplit | src/days/day_12.rs:84-87 | "1,1,3" splits at the commas into "1", "1", "3" |
| Day12.ExampleGroupsParse | src/days/day_12.rs:84-87 | "1", "1", "3" read as 1, 1, 3 |
| Day12.ExampleSolve | src/days/day_12.rs:25-65 | "?.#" with groups 1, 1 has one arrangement |
| Day13.CellOf | src/days/day_13.rs:36-40 | '#' is rock, '.' is ash, and any other character has no cell (the panic) |
| Day13.ParseLine | src/days/day_13.rs:34-42 | a line parses iff it holds only '#' and '.', giving one cell per character, rock exactly at '#' |
| Day13.AllParsed | src/days/day_13.rs:30-32 | a pattern parses iff every line does, each row being its line parsed |
| Day13.Reverse | src/days/day_13.rs:96 | the same cells in the opposite order |
| Day13.Reach | src/days/day_13.rs:86-92 | the cells compared on each side of a fold: at least one, at most the cells left of it, and within the row on the right |
| Day13.Before | src/days/day_13.rs:91 | the cells left of the fold that face the other side |
| Day13.After | src/days/day_13.rs:92 | the cells right of the fold that face the other side |
| Day13.MismatchesZero | src/days/day_13.rs:94-98 | two rows have no mismatches iff they are equal |
| Day13.MismatchesOne | src/days/day_13.rs:94-98 | two rows have one mismatch iff they differ at exactly one position |
| Day13.DifferCons | src/days/day_13.rs:94-98 | two rows differ at exactly one position when their first cells differ and the rest agree, or their first cells agree and the rest differ at one position |
| Day13.DifferUncons | src/days/day_13.rs:94-98 | and conversely two rows differing at exactly one position do so in the first cell or in the rest |
| Day13.MismatchesConcat | src/days/day_13.rs:94-98 | the mismatches of joined rows add up |
| Day13.MismatchesReverse | src/days/day_13.rs:96 | reading both rows backwards finds the same mismatches |
| Day13.ReverseTwice | src/days/day_13.rs:96 | reversing twice gives the row back |
| Day13.DiffsBeforeAfter | src/days/day_13.rs:86-98 | the source's count pairs the left side reversed with the right side, which counts the mismatches read away from the fold |
| Day13.DiffsZero | src/days/day_13.rs:86-98 | a row has no mismatches at a fold iff it reads the same both ways from the fold as far as both sides reach |
| Day13.DiffsOne | src/days/day_13.rs:86-98 | a row has one mismatch at a fold iff exactly one pair of facing cells differs (one smudge) |
| Day13.FindSymmetryLines | src/days/day_13.rs:82-103 | the map has a key for every fold 1 to the row's length minus one, holding that fold's mismatches; fold 0 is skipped |
| Day13.Width | src/days/day_13.rs:58-66 | the length of the longest row |
| Day13.TotalZero | src/days/day_13.rs:58-77 | a pattern has total 0 at a fold iff every row reaching that fold mirrors there |
| Day13.TotalSnoc | src/days/day_13.rs:60-66 | one more row adds its mismatches at the folds it reaches |
| Day13.TotalOne | src/days/day_13.rs:58-77 | a pattern has total 1 at a fold iff one row has one smudge there and every other row reaching it mirrors |
| Day13.TotalOneReaching | src/days/day_13.rs:58-77 | one more row reaching the fold keeps total 1 exactly when one row has the one smudge there |
| Day13.TotalOneShort | src/days/day_13.rs:58-77 | one more row too short to reach the fold keeps total 1 exactly when one row has the one smudge there |
| Day13.SmudgeFound | src/days/day_13.rs:58-77 | when the total with the new row is 1, some row has the one smudge there |
| Day13.SmudgeCounted | src/days/day_13.rs:58-77 | when some row has the one smudge, the total with the new row is 1 |
| Day13.SmudgeInLast | src/days/day_13.rs:58-77 | a smudge in the new row means it differs at one position and every earlier row reaching the fold mirrors |
| Day13.SmudgeInFront | src/days/day_13.rs:58-77 | a smudge in an earlier row means the new row mirrors and the earlier rows already had it |
| Day13.TotalBeyond | src/days/day_13.rs:58-66 | no row reaches a fold at or past the longest row's length |
| Day13.FoldTotals | src/days/day_13.rs:57-66 | the table of differences has one entry per fold from 1 to below the widest row, each the total mismatches there |
| Day13.PartialTotalsStep | src/days/day_13.rs:63-65 | adding one line's mismatches at a fold, inserting or increasing its entry, keeps the table's invariant |
| Day13.FindSymmetryLine | src/days/day_13.rs:57-80 | the folds reported are one with total 0 and one with total 1, or nothing when no fold has that total |
| Day13.AddTotals | src/days/day_13.rs:63-65 | adding one row's map, in any key order, gives the per-fold totals of the rows including it |
| Day13.WidthSnoc | src/days/day_13.rs:58-66 | one more row widens the pattern to its own length if it is longer |
| Day13.TransposeRectangle | src/days/day_13.rs:157-167 | the transpose of a rectangle swaps row and column indices |
| Day13.TransposeTwice | src/days/day_13.rs:157-167 | transposing a rectangle with at least one column twice gives it back |
| Day13.Transpose | src/days/day_13.rs:157-167 | pushing every cell onto the row of its column gives the transpose, sized by the first row; an empty pattern or a row longer than the first has none (the panic) |
| Day13.RotatingAccepts | src/days/day_13.rs:44-55 | an answer exists iff each of the perfect and the smudged fold is found in exactly one orientation; a fold between rows counts 100 times its index |
| Day13.FindRotatingSymmetryLine | src/days/day_13.rs:44-55 | the answer combines what the fold search may report for the columns and for the rows, with none for a pattern that cannot be transposed |
| Day13.ChosenSnoc | src/days/day_13.rs:17-21 | one more pattern's report extends the reports chosen so far |
| Day13.TotalsSnoc | src/days/day_13.rs:17-21 | one more answer adds to both sums; a rejected report aborts |
| Day13.SummedStep | src/days/day_13.rs:17-21 | the report of the next pattern extends the chosen reports, and a rejected one ends the sums with no answer |
| Day13.AddGrid | src/days/day_13.rs:17-21 | one pattern's answer is added to both sums, or no answer when its search is rejected |
| Day13.SumGrids | src/days/day_13.rs:17-23 | the sums are those of the answers of reports the search may give for every pattern; no answer only when some pattern's search panics |
| Day13.Exec | src/days/day_13.rs:11-24 | a pattern with a bad character aborts; otherwise the sums over all the patterns, as in the summing loop |
| Day13.ExampleSymmetryFinder | src/days/day_13.rs:117-124 | "#....#" has no mismatches at fold 3 |
| Day13.SampleRowsMirror | src/days/day_13.rs:126-139 | every row of the test pattern has nine cells and mirrors at fold 5 |
| Day13.FoldBeforeSixth | src/days/day_13.rs:126-139 | a nine-cell row whose cells pair up around fold 5 mirrors there |
| Day13.PerfectFold | src/days/day_13.rs:57-80 | a fold where every row, all of one width, mirrors may be reported as the perfect fold |
| Day13.Unmirrored | src/days/day_13.rs:84-103 | a row does not mirror at a fold where one pair of facing cells differs |
| Day13.TwoUnmirrored | src/days/day_13.rs:57-80 | a fold where two rows do not mirror has a total of neither 0 nor 1 |
| Day13.SampleOtherFolds | src/days/day_13.rs:126-139 | every fold of the test pattern other than 5 has a total of neither 0 nor 1 |
| Day13.ExamplePerfectFold | src/days/day_13.rs:126-139 | fold 5 may be reported as the test pattern's perfect fold, it is the only fold with total 0, and no fold has total 1 |
| Day13.ExampleFindSymmetryLine | src/days/day_13.rs:126-139 | whatever the hash-map order, the search reports `(Some(5), None)` for the test pattern |

## Left out

- The driver `src/main.rs` and `utils::read_input` only read files and print. The tests that run `exec` on the sample files are left out with them, because the sample files are not part of this model.
- Machine integers are unbounded. Overflow and wrap-around of `usize`, `u32`, `i32` and `isize` are not modelled, and neither is the `as usize` cast of a shifted Day 5 value or `2_u32.pow` in Day 4.
- The `#[cached]` memoization of Day 12's `solve` changes only speed. `Day12.Solve` is a plain recursive function.
- Day 9's unused `pairwise` helper and Day 10's commented-out grid printing are not modelled.
- Day 1 keeps the source's starting index 999 for the first-digit search, as written. An occurrence at index 999 or later is therefore never taken as the first digit.
- Text is a sequence of Unicode characters, and every position counts characters. Rust's `find`, `rfind`, `split_at` and string slices count bytes. The two agree on ASCII text, which is what the puzzles give. On other text, Day 1's start index 999 counts bytes in the source. The fixed slices `left[5..]` (day_2.rs:40) and `&line[0..3]`, `[7..10]`, `[12..15]` (day_8.rs:74-76) panic in the source off a character boundary, where the model slices characters.
- Day 3 models `char::is_numeric` as the ASCII digits `0`..`9`. Other Unicode numerals are not modelled.
- Day5.Chomp: as written, the chomping of a range only splits where the range's start or end falls inside a map's range; a map lying strictly inside the seed range is passed over and its values keep no shift (`Day5.ExampleInnerMapPassedOver`), and where the start falls inside, the map's end `hi` is passed on to the later maps as well. The model keeps this behaviour, so `Day5.ChompCovers` only promises that each value comes out unshifted or shifted by a map holding it, not by the first such map.
- Day5.ProcessMap: requires the seed range to have `min <= max + 1`. Parsing and the part-two construction always give such ranges, including a part-two length of 0.
- Day 7's `sort_by` is modelled as a stable insertion sort over the comparison on hand values, not as Rust's merge sort. `Day7.SortHandsUnique` shows that any stable sort in that order gives the same list. The sort works on values, not in place in the vector. The modes are switched in place, as in the source.
- Day8.CalcSteps: the source loops until it arrives, so the model takes a `fuel` bound on the number of moves. `None` means that no arrival was found within the fuel, or that there is no instruction.
- Day8.Exec: gives `None` when a walk outruns the fuel (and says which kind of failure it was), so it does not promise that an answer exists for a given fuel.
- Day9.PredictNext: requires at least two values, where the source's `unwrap` of the last difference would panic. The model's `Exec` returns `None` for a line with fewer values.
- Day10.MaxPipeDistance: proves that the seen set is exactly the pipes reachable from the start, and that the answer is half its size. It does not prove that half the loop's size is the farthest distance along the loop.
- Day10.Exec: part two is 0, as in the source.
- The expectation of Day 10's `test_parse_line` (`char: 'x'` for the input "F") disagrees with the code, which stores 'F'. `Day10.ExamplePipeF` states what the code produces.
- Day11.Expanded: the closed form of the expanded positions is proved for rectangular grids no wider than they are high. Only on those does the source's `transpose` keep every column. On wider grids the transpose is `None`, where the source indexes past its allocated rows and panics.
- Day12.SolveIsArrangements: the count is identified with the number of fillings only for positive group lengths. A group of length 0 is handled as the source handles it, but it is not given that meaning.
- Day13.Exec: which split the search reports depends on `HashMap` order. The model states that the sums come from some reports the search may make for each pattern, and it keeps those reports as a ghost output.
- The expectation of Day 13's `test_find_transposed_symmetry_line` is not stated as a lemma. It needs the mismatch totals of every fold of a 7 by 9 pattern in both orientations, which the model does not compute.
