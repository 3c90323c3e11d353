# Statistics extractor of the side-by-side compiler benchmark

The tool runs one compiler test under two toolchains and compares them. For
each run, it reads the diagnostic text that `llc -stats --time-passes` writes
and turns it into a `Stats` record with four fields:

- the number of machine instructions printed (`AsmInstrs`);
- the bytes of stack used by all functions (`StackSpace`);
- the total execution time (`Seconds`);
- the wall-clock time (`WallSeconds`).

This project models that extractor in Dafny:

- `parseTestOutput` together with its three patterns and the `Stats` record;
- the check of the `-test`, `-t1` and `-t2` flags at the start of `main`.

Modules:

- `Text` holds `strings.Split` on one character and `strings.TrimSpace` with
  `unicode.IsSpace`. `TrimSpace` is specified by `IsTrimOf`: the result is
  the unique part of the line that has only spaces around it and no space at
  either end.
- `Numbers` holds `strconv.Atoi` on a run of digits and `strconv.Atof64` on a
  run of digits and dots.
  - Go's `int` is 32 bits, as it was on every target before Go 1.1; the
    `os.Error` type and the `exec` package the program uses predate Go 1.
    Atoi clamps a value past `MaxInt` (2147483647) and reports an error.
  - A float is represented by the decimal numeral it was read from.
- `Patterns` holds the three regular expressions of `main.go:23-25` as
  hand-written matchers.
  - `IsMatch` states the language of each expression.
  - `MatchAt` computes the match that starts at one given index.
    `FindFrom`, `MatchString` and `FindStringSubmatch` search for the
    leftmost match. All of them are proved to agree with `IsMatch`.
  - In every pattern, the character after each repeated class lies outside
    that class, so a match is fixed by where it starts.
- `Extractor` holds the `Stats` class, the imperative `ParseTestOutput` loop
  and its specification `Extract`.
  - `Extract` is a left fold, over the split lines, of the writes each
    trimmed line makes (`Effect`).
  - `ParseTestOutput` mutates a fresh `Stats` object line by line. It is
    proved to end with `Extract`'s value.
  - The extractor is total: `ParseTestOutput` has no precondition and
    returns a record for every text.
  - The lemmas state what the fold promises: all-zero on text without
    statistics, last write wins, and padding is ignored.
  - They also state which fields a single line writes. A line may match
    several patterns; each match writes its fields unless an earlier
    conversion on the same line failed.
- `Scenario` proves the result for a whole report of three lines:
  - for any numbers that fit in an int, and any fillers without `N`, `T`
    or a line break;
  - for the sample report shown in that module.
- `Flags` holds `checkArg` and the three calls of it in `main`.

Points where the code behaves differently from what one might expect, and
which the model follows:

- Go evaluates `res.AsmInstrs, err = strconv.Atoi(ss[1])` before it tests
  `err`. A conversion that fails therefore still overwrites the field:
  - Atoi stores `MaxInt` on overflow;
  - Atof64 stores zero on a syntax error such as `1.2.3`.

  The field does not keep its previous value. The `continue` then skips the
  patterns that come later on the same line. `Combine` and `ScanLine` model
  this.
- The `len(ss) != 2` and `len(ss) != 3` checks (`main.go:75`, `88`, `101`)
  never fail. `FindStringSubmatch` is proved to return one capture per
  group. `MatchCounter` and `MatchTime` keep the checks as dead branches.
- `FindStringSubmatch` returns only the capture groups. It leaves out Go's
  element 0, the whole match, which the code never reads. Its element `k`
  is Go's `ss[k + 1]`.

## Model

| member | source | states |
|---|---|---|
| Text.IsSpace | main.go:72 | defines `unicode.IsSpace`: the Latin-1 spaces (tab, line feed, vertical tab, form feed, carriage return, space, U+0085, U+00A0) and the other White_Space characters of Unicode 6.0, U+180E included |
| Text.TrimSpace | main.go:72 | the trimmed line is the part of the line with only spaces before and after it and no space at either end |
| Text.TrimSpaceUnique | main.go:72 | any split of a line into space, a text without outer space, and space yields that text as the trim |
| Text.TrimSpacePadded | main.go:72 | adding spaces around a line does not change its trim |
| Text.Split | main.go:71 | splitting on the line break gives at least one piece; no piece holds a line break; joining the pieces with line breaks gives the text back |
| Text.SplitJoin | main.go:71 | splitting undoes joining pieces that hold no line break |
| Numbers.Atoi | main.go:80 | a run of digits converts to its decimal value when that fits in a 32-bit int; otherwise it gives MaxInt (2147483647) with an error |
| Numbers.DecimalRoundTrip | main.go:80 | reading back the decimal numeral of a number gives the number |
| Numbers.AtoiOfDecimalText | main.go:80 | Atoi reads every printed int back exactly and without error |
| Numbers.AtoiPastMaxInt | main.go:80-83 | every printed number past MaxInt is rejected with an error, and MaxInt is what gets stored |
| Numbers.Atof64 | main.go:106-111 | a run of digits and dots converts without error exactly when it is a float literal (at most one dot, at least one digit); otherwise it gives zero with an error |
| Numbers.LiteralIffFewDots | main.go:106-111 | the dot-counting test used by Atof64 holds exactly for float literals |
| Patterns.MatchAt | main.go:23-25 | a match reported at an index is a match of the expression there, with those groups |
| Patterns.MatchAtComplete | main.go:23-25 | every match of the expression that starts at an index is the one MatchAt reports, so the groups are fixed by the start |
| Patterns.FindFrom | main.go:23-25 | the match found starts at or after the index and no match starts before it; None means no match starts at or after the index |
| Patterns.MatchStringIffMatch | main.go:73 | MatchString is true exactly when some part of the line matches the expression |
| Patterns.FindStringSubmatch | main.go:74 | it finds something exactly when MatchString holds; what it finds is one non-empty run of the group class per group |
| Patterns.FindStringSubmatchIffMatch | main.go:74 | it finds something exactly when some part of the line matches |
| Patterns.FindStringSubmatchIsLeftmost | main.go:74 | what it finds are the group texts of the match that starts first in the line |
| Patterns.CounterMatchHasTail | main.go:23-24 | a counter expression matches only where its fixed tail text occurs, starting with `N` |
| Patterns.ExecTimeMatchHasHead | main.go:25 | the timing expression matches only lines that contain a `T` |
| Patterns.CounterCaptureIsWholeNumber | main.go:23-24 | the leftmost counter match never starts in the middle of a number: no digit precedes it |
| Patterns.CounterLineCapture | main.go:23-24 | a line with digits, the tag, a filler without `N` and the tail captures exactly those digits |
| Patterns.ExecTimeLineCapture | main.go:25 | a timing line captures its two numerals |
| Patterns.IsMatch | main.go:23-25 | defines the language of each expression: the digit run, the tag, a filler without `N` and the tail of a counter expression; the fixed texts and the two runs of digits and dots of the timing expression; with the spans of the capture groups |
| Patterns.MatchString | main.go:73 | defines `regexp.MatchString` as a search for a match from the start of the line; MatchStringIffMatch states its meaning |
| Numbers.DecimalValue | main.go:80 | defines the value of a decimal numeral, most significant digit first, which Atoi returns when it fits |
| Extractor.CounterParse | main.go:73-93 | defines one counter expression's step: None when it does not match the line, else Atoi of its capture |
| Extractor.TimeParse | main.go:99-111 | defines the timing expression's step: None when it does not match the line, else Atof64 of each of its two captures |
| Extractor.Combine | main.go:73-116 | defines the writes of one line from the three parses: each match assigns its converted value even when the conversion fails, and a failed conversion ends the line so no later expression is tried |
| Extractor.Effect | main.go:73-116 | defines the writes of one trimmed line as Combine of the two counter parses and the timing parse |
| Extractor.Scan | main.go:72-116 | defines the writes of one line of the text: Effect of the trimmed line |
| Extractor.Extract | main.go:69-119 | defines the record for a text: the writes of every line of its split, applied in order to the zero record; ParseTestOutput is proved to return it |
| Extractor.Apply | main.go:80-111 | defines the assignments of one line: each field the line writes is overwritten, the others are kept |
| Extractor.ApplyAll | main.go:71-117 | defines the loop over the lines: the writes applied one after another, in the order of the lines |
| Extractor.ApplyField | main.go:80-111 | after a line, each field holds what the line wrote into it, or its old value when the line did not write it |
| Extractor.Stats.constructor | main.go:70 | a new record has every field at zero |
| Extractor.ParseTestOutput | main.go:69-119 | returns a fresh record whose contents equal the in-order fold of every trimmed line's writes over the zero record |
| Extractor.ScanLine | main.go:72-116 | one pass of the loop body changes the record exactly by the writes the trimmed line makes |
| Extractor.MatchCounter | main.go:73-80 | testing a counter expression and converting its capture gives the line's counter parse (None when there is no match) |
| Extractor.MatchTime | main.go:99-111 | testing the timing expression and converting both captures gives the line's timing parse |
| Extractor.EffectIffRecognised | main.go:73-116 | a line writes nothing exactly when none of the three expressions matches it |
| Extractor.CombineWritesNothing | main.go:73-116 | nothing is written exactly when no expression matched |
| Extractor.CombineAsm | main.go:73-85 | a match of the instruction expression writes AsmInstrs; a failed conversion then ends the line with nothing else written |
| Extractor.EffectOfAsm | main.go:73-85 | the same, for the parse results of one line |
| Extractor.CombineStack | main.go:86-98 | when the instruction expression did not match or converted without error, a stack match writes StackSpace (and AsmInstrs stays unwritten if there was no instruction match); a failed stack conversion then ends the line |
| Extractor.WritesNeedMatch | main.go:73-116 | each field is written only when its own expression matches the line |
| Extractor.NoWritesKeep | main.go:71-117 | lines that write nothing leave the record as it was |
| Extractor.NoStatisticsAllZero | main.go:70-117 | text in which no trimmed line matches an expression gives the all-zero record |
| Extractor.UnwrittenFieldKeeps | main.go:71-117 | a field that no line writes keeps its value |
| Extractor.LastWriteWins | main.go:71-117 | the last line that writes a field decides its value |
| Extractor.ExtractField | main.go:70-117 | for a whole text, each field is zero when no line writes it; otherwise it is what the last line writing it wrote |
| Extractor.PaddingIgnored | main.go:72 | spaces around a line do not change what it writes |
| Extractor.AsmInstrsLine | main.go:73-85 | a line whose instruction capture is `d` sets AsmInstrs to the value of `d`, clamped to MaxInt; on overflow nothing else is written |
| Extractor.StackSpaceLine | main.go:86-98 | when the instruction expression does not match or converts without error, a line whose stack capture is `d` sets StackSpace to the value of `d`, clamped to MaxInt; on overflow the times are not written; AsmInstrs is unwritten exactly when the instruction expression does not match |
| Extractor.BothCountersLine | main.go:73-98 | a line on which both counter expressions match, with numbers that fit in an int, writes both counters with their numbers |
| Extractor.ExecTimeLine | main.go:99-116 | when each counter expression does not match or converts without error, a timing line sets Seconds to its first numeral (or zero when the numeral is malformed), then WallSeconds to its second numeral (or zero) only when the first converted |
| Scenario.AsmLineEffect | main.go:73-85 | a well-formed instruction-count line writes only AsmInstrs, with its number |
| Scenario.StackLineEffect | main.go:86-98 | a well-formed stack line writes only StackSpace, with its number |
| Scenario.TimeLineEffect | main.go:99-116 | a well-formed timing line writes only the two times |
| Scenario.CountsThenTimes | main.go:71-117 | a report of three lines that each write their own fields yields a record holding each line's values |
| Scenario.ReportStats | main.go:69-119 | the record for any instruction line, stack line and timing line holds the two numbers and the two times |
| Scenario.SampleReport | main.go:69-119 | the sample report gives 1234 instructions, 56 bytes of stack, 0.0421 s and 0.0450 s |
| Flags.Missing | main.go:150-152 | defines how the program stops for a flag without a value: the message `<name> is not specified` and a line break on standard error, and exit status 1 |
| Flags.CheckArg | main.go:148-153 | the program stops, naming the flag with exit status 1, exactly when the condition fails |
| Flags.FirstMissing | main.go:156-160 | nothing stops the program exactly when every flag has a non-empty value |
| Flags.FirstMissingIsFirst | main.go:156-160 | a stop names the first flag whose value is empty |
| Flags.CheckArgs | main.go:156-160 | the three checks in order give the exit of the first empty flag among -test, -t1 and -t2 |
| Flags.FlagOrder | main.go:156-160 | -test is reported before -t1, which is reported before -t2; with all three given, the program goes on |

## Left out

- `runTest` (main.go:36-67): reading the test file, starting `llc`, the pipes and `cmd.Wait` are process I/O. Their stderr text is the parameter of `ParseTestOutput`.
- `runAndParse`, `runBoth` and the repeated run in `main` whose first result is discarded (main.go:121-139, 165-170): these only sequence external runs and `log.Fatalf` exits.
- `printStats` (main.go:141-146): output formatting with `%v` and `path.Base`.
- The `log.Printf` warnings on the error paths: they are output only. The model keeps their control flow, the skip to the next line.
- `flag.Parse`, `flag.PrintDefaults`, writing to standard error and `os.Exit`: the flag values are parameters, and the exit is returned as an `Exit` value.
- Atof64: does not model the range error that Go reports, together with an infinite value, for a numeral beyond the largest float64. The model accepts such a numeral without error and keeps it as `Decimal`. Binary rounding and equality of floats are not modelled either: `0.5` and `0.50` are different `Decimal` values.
- TrimSpace: sees a string as a sequence of code points. The decoding of invalid UTF-8 bytes, which Go turns into U+FFFD, is not modelled.
- ReportStats: covers counter fillers with no `T` and no line break, and numbers that fit in an int. With such fillers, a counter line cannot also match the timing expression. Other reports are covered by the general lemmas of `Extractor`.
