/**
 * The report the code generator writes for one compilation: an
 * instruction-count line, a stack-size line and the timing summary, for
 * example
 *
 *   1234 asm-printer               - Number of machine instrs printed
 *   56 pei-prologue-epilogue       - Number of bytes used for stack in all functions
 *   Total Execution Time: 0.0421 seconds (0.0450 wall clock)
 *
 * and the record parseTestOutput makes of any such report.
 */
module Scenario {
  import opened Wrappers
  import opened Text
  import opened Numbers
  import opened Patterns
  import opened Extractor

  /** `<d> asm-printer<filler>Number of machine instrs printed` */
  function AsmLine(d: string, filler: string): string {
    d + AsmInstrsPattern.tag + filler + AsmInstrsPattern.tail
  }

  /** `<d> pei<filler>Number of bytes used for stack in all functions` */
  function StackLine(d: string, filler: string): string {
    d + StackSpacePattern.tag + filler + StackSpacePattern.tail
  }

  /** `Total Execution Time: <x> seconds (<y> wall clock)` */
  function TimeLine(x: string, y: string): string {
    TimeHead + x + TimeMid + y + TimeTail
  }

  /** What makes a counter line: a number, and a filler without `N`, `T` or
      line break. */
  predicate CounterParts(d: string, filler: string) {
    |d| > 0 && AllInClass(d, Digit) && |filler| > 0 && AllInClass(filler, NotN)
    && 'T' !in filler && '\n' !in filler
  }

  /** No character of `t` is `c`. */
  lemma NotInDigits(t: string, c: char)
    requires AllInClass(t, DigitOrDot) && !IsDigit(c) && c != '.'
    ensures c !in t
  {
  }

  lemma NotInFiller(t: string)
    requires AllInClass(t, NotN)
    ensures 'N' !in t
  {
  }

  /** A character missing from four pieces is missing from the line. */
  lemma NotInPieces(a: string, b: string, c: string, e: string, ch: char)
    requires ch !in a && ch !in b && ch !in c && ch !in e
    ensures ch !in a + b + c + e
  {
  }

  /** When no `N` precedes `tail`, a literal longer than `tail` that starts
      with `N` occurs nowhere in `head + tail`. */
  lemma NoLongerTail(head: string, tail: string, lit: string)
    requires 'N' !in head && |lit| > |tail|
    ensures forall m :: 0 <= m < |head + tail| && (head + tail)[m] == 'N' ==> !HasPrefixAt(head + tail, m, lit)
  {
    var s := head + tail;
    assert forall m :: 0 <= m < |head| ==> s[m] == head[m];
  }

  /** When the only `N` of `head + tail` starts `tail`, a literal that
      differs from `tail` at position 10 occurs nowhere in it. */
  lemma OtherTail(head: string, tail: string, lit: string)
    requires 'N' !in head && |tail| > 10 && 'N' !in tail[1..]
    requires |lit| > 10 && lit[10] != tail[10]
    ensures forall m :: 0 <= m < |head + tail| && (head + tail)[m] == 'N' ==> !HasPrefixAt(head + tail, m, lit)
  {
    var s := head + tail;
    assert forall m :: 0 <= m < |head| ==> s[m] == head[m];
    assert forall m :: |head| < m < |s| ==> s[m] == tail[1..][m - |head| - 1];
    assert s[|head| + 10] == tail[10];
    PrefixChars(s, |head|, lit);
  }

  /** Each character of an occurrence of `lit` is the matching character of
      `lit`. */
  lemma PrefixChars(s: string, i: nat, lit: string)
    ensures HasPrefixAt(s, i, lit) ==> forall k :: 0 <= k < |lit| ==> s[i + k] == lit[k]
  {
    if HasPrefixAt(s, i, lit) {
      forall k | 0 <= k < |lit|
        ensures s[i + k] == lit[k]
      {
        assert s[i..i + |lit|][k] == s[i + k];
      }
    }
  }

  lemma AsmLineCapture(d: string, filler: string)
    requires CounterParts(d, filler)
    ensures FindStringSubmatch(AsmInstrsPattern, AsmLine(d, filler)) == Some([d])
  {
    CounterLineCapture(AsmInstrsPattern, d, filler, "");
    assert AsmLine(d, filler) + "" == AsmLine(d, filler);
  }

  lemma StackLineCapture(d: string, filler: string)
    requires CounterParts(d, filler)
    ensures FindStringSubmatch(StackSpacePattern, StackLine(d, filler)) == Some([d])
  {
    CounterLineCapture(StackSpacePattern, d, filler, "");
    assert StackLine(d, filler) + "" == StackLine(d, filler);
  }

  lemma TimeLineCapture(x: string, y: string)
    requires |x| > 0 && AllInClass(x, DigitOrDot) && |y| > 0 && AllInClass(y, DigitOrDot)
    ensures FindStringSubmatch(ExecTime, TimeLine(x, y)) == Some([x, y])
  {
    ExecTimeLineCapture(x, y, "");
    assert TimeLine(x, y) + "" == TimeLine(x, y);
  }

  /** A counter line has no `T`, so the timing pattern does not match it. */
  lemma CounterLineNotTime(d: string, tag: string, filler: string, tail: string)
    requires AllInClass(d, Digit) && Lacks(tag, 'T') && 'T' !in filler && Lacks(tail, 'T')
    ensures FindStringSubmatch(ExecTime, d + tag + filler + tail) == None
  {
    NotInDigits(d, 'T');
    NotInPieces(d, tag, filler, tail, 'T');
    ExecTimeMatchHasHead(d + tag + filler + tail);
    FindStringSubmatchIffMatch(ExecTime, d + tag + filler + tail);
  }

  lemma AsmLineNotStack(d: string, filler: string)
    requires CounterParts(d, filler)
    ensures FindStringSubmatch(StackSpacePattern, AsmLine(d, filler)) == None
  {
    var head := d + AsmInstrsPattern.tag + filler;
    NotInDigits(d, 'N');
    NotInFiller(filler);
    NotInPieces(d, AsmInstrsPattern.tag, filler, "", 'N');
    assert head == d + AsmInstrsPattern.tag + filler + "";
    NoLongerTail(head, AsmInstrsPattern.tail, StackSpacePattern.tail);
    CounterMatchHasTail(StackSpacePattern, head + AsmInstrsPattern.tail);
    FindStringSubmatchIffMatch(StackSpacePattern, head + AsmInstrsPattern.tail);
  }

  lemma StackLineNotAsm(d: string, filler: string)
    requires CounterParts(d, filler)
    ensures FindStringSubmatch(AsmInstrsPattern, StackLine(d, filler)) == None
  {
    var head := d + StackSpacePattern.tag + filler;
    NotInDigits(d, 'N');
    NotInFiller(filler);
    NotInPieces(d, StackSpacePattern.tag, filler, "", 'N');
    assert head == d + StackSpacePattern.tag + filler + "";
    StackTailFacts();
    OtherTail(head, StackSpacePattern.tail, AsmInstrsPattern.tail);
    CounterMatchHasTail(AsmInstrsPattern, head + StackSpacePattern.tail);
    FindStringSubmatchIffMatch(AsmInstrsPattern, head + StackSpacePattern.tail);
  }

  lemma StackTailFacts()
    ensures 'N' !in StackSpacePattern.tail[1..] && |StackSpacePattern.tail| > 10
    ensures |AsmInstrsPattern.tail| > 10 && AsmInstrsPattern.tail[10] != StackSpacePattern.tail[10]
  {
  }

  lemma TimeLineNotCounter(x: string, y: string, p: Pattern)
    requires AllInClass(x, DigitOrDot) && AllInClass(y, DigitOrDot)
    requires p.Counter? && WellFormed(p)
    ensures FindStringSubmatch(p, TimeLine(x, y)) == None
  {
    NotInDigits(x, 'N');
    NotInDigits(y, 'N');
    TimeTexts();
    NotInTimeLine(x, y, 'N');
    CounterMatchHasTail(p, TimeLine(x, y));
    FindStringSubmatchIffMatch(p, TimeLine(x, y));
  }

  /** A line that opens with a digit and closes with the last character of
      a literal has nothing for TrimSpace to remove. */
  lemma KeptLine(line: string, head: string, tail: string)
    requires line == head + tail && |head| > 0 && IsDigit(head[0]) && |tail| > 0
    requires !IsSpace(tail[|tail| - 1])
    ensures TrimSpace(line) == line
  {
    assert line[0] == head[0];
    assert line[|line| - 1] == tail[|tail| - 1];
    TrimSpaceKeeps(line);
  }

  /** A line that only the instruction-count pattern matches, on a number
      that fits, writes only asmInstrs. */
  lemma OnlyAsmInstrs(line: string, d: string)
    requires FindStringSubmatch(AsmInstrsPattern, line) == Some([d])
    requires FindStringSubmatch(StackSpacePattern, line) == None && FindStringSubmatch(ExecTime, line) == None
    requires AllInClass(d, Digit) && DecimalValue(d) <= MaxInt
    ensures Effect(line) == LineEffect(Some(DecimalValue(d)), None, None, None)
  {
  }

  /** A line that only the stack pattern matches, on a number that fits,
      writes only stackSpace. */
  lemma OnlyStackSpace(line: string, d: string)
    requires FindStringSubmatch(StackSpacePattern, line) == Some([d])
    requires FindStringSubmatch(AsmInstrsPattern, line) == None && FindStringSubmatch(ExecTime, line) == None
    requires AllInClass(d, Digit) && DecimalValue(d) <= MaxInt
    ensures Effect(line) == LineEffect(None, Some(DecimalValue(d)), None, None)
  {
  }

  /** An instruction-count line writes only asmInstrs. */
  lemma AsmLineEffect(d: string, filler: string)
    requires CounterParts(d, filler) && DecimalValue(d) <= MaxInt
    ensures Scan(AsmLine(d, filler)) == LineEffect(Some(DecimalValue(d)), None, None, None)
  {
    AsmLineKept(d, filler);
    AsmLineWrites(d, filler);
  }

  lemma AsmLineWrites(d: string, filler: string)
    requires CounterParts(d, filler) && DecimalValue(d) <= MaxInt
    ensures Effect(AsmLine(d, filler)) == LineEffect(Some(DecimalValue(d)), None, None, None)
  {
    AsmLineCapture(d, filler);
    AsmLineNotStack(d, filler);
    AsmLineNotTime(d, filler);
    OnlyAsmInstrs(AsmLine(d, filler), d);
  }

  /** TrimSpace leaves an instruction-count line as it is. */
  lemma AsmLineKept(d: string, filler: string)
    requires CounterParts(d, filler)
    ensures Scan(AsmLine(d, filler)) == Effect(AsmLine(d, filler))
  {
    KeptLine(AsmLine(d, filler), d + AsmInstrsPattern.tag + filler, AsmInstrsPattern.tail);
  }

  lemma AsmLineNotTime(d: string, filler: string)
    requires CounterParts(d, filler)
    ensures FindStringSubmatch(ExecTime, AsmLine(d, filler)) == None
  {
    AsmTexts();
    CounterLineNotTime(d, AsmInstrsPattern.tag, filler, AsmInstrsPattern.tail);
  }

  /** A stack line writes only stackSpace. */
  lemma StackLineEffect(d: string, filler: string)
    requires CounterParts(d, filler) && DecimalValue(d) <= MaxInt
    ensures Scan(StackLine(d, filler)) == LineEffect(None, Some(DecimalValue(d)), None, None)
  {
    StackLineKept(d, filler);
    StackLineWrites(d, filler);
  }

  lemma StackLineWrites(d: string, filler: string)
    requires CounterParts(d, filler) && DecimalValue(d) <= MaxInt
    ensures Effect(StackLine(d, filler)) == LineEffect(None, Some(DecimalValue(d)), None, None)
  {
    StackLineCapture(d, filler);
    StackLineNotAsm(d, filler);
    StackLineNotTime(d, filler);
    OnlyStackSpace(StackLine(d, filler), d);
  }

  /** TrimSpace leaves a stack line as it is. */
  lemma StackLineKept(d: string, filler: string)
    requires CounterParts(d, filler)
    ensures Scan(StackLine(d, filler)) == Effect(StackLine(d, filler))
  {
    KeptLine(StackLine(d, filler), d + StackSpacePattern.tag + filler, StackSpacePattern.tail);
  }

  lemma StackLineNotTime(d: string, filler: string)
    requires CounterParts(d, filler)
    ensures FindStringSubmatch(ExecTime, StackLine(d, filler)) == None
  {
    StackTexts();
    CounterLineNotTime(d, StackSpacePattern.tag, filler, StackSpacePattern.tail);
  }

  /** No character of `t` is `c`. */
  predicate Lacks(t: string, c: char) {
    forall k :: 0 <= k < |t| ==> t[k] != c
  }

  /** The fixed texts of the counter patterns hold no `T` and no line break. */
  lemma AsmTexts()
    ensures Lacks(AsmInstrsPattern.tag, 'T') && Lacks(AsmInstrsPattern.tag, '\n')
    ensures Lacks(AsmInstrsPattern.tail, 'T') && Lacks(AsmInstrsPattern.tail, '\n')
  {
  }

  lemma StackTexts()
    ensures Lacks(StackSpacePattern.tag, 'T') && Lacks(StackSpacePattern.tag, '\n')
    ensures Lacks(StackSpacePattern.tail, 'T') && Lacks(StackSpacePattern.tail, '\n')
  {
  }

  /** A line that only the timing pattern matches, with two well-formed
      numerals, writes seconds and wallSeconds. */
  lemma OnlyTimes(line: string, x: string, y: string)
    requires FindStringSubmatch(ExecTime, line) == Some([x, y])
    requires FindStringSubmatch(AsmInstrsPattern, line) == None && FindStringSubmatch(StackSpacePattern, line) == None
    requires IsFloatLiteral(x) && IsFloatLiteral(y)
    ensures Effect(line) == LineEffect(None, None, Some(Decimal(x)), Some(Decimal(y)))
  {
  }

  /** A float literal has at least one character. */
  lemma LiteralNotEmpty(t: string)
    requires IsFloatLiteral(t)
    ensures |t| > 0
  {
  }

  /** A timing line writes seconds and wallSeconds. */
  lemma TimeLineEffect(x: string, y: string)
    requires AllInClass(x, DigitOrDot) && AllInClass(y, DigitOrDot)
    requires IsFloatLiteral(x) && IsFloatLiteral(y)
    ensures Scan(TimeLine(x, y)) == LineEffect(None, None, Some(Decimal(x)), Some(Decimal(y)))
  {
    TimeLineKept(x, y);
    TimeLineWrites(x, y);
  }

  lemma TimeLineWrites(x: string, y: string)
    requires AllInClass(x, DigitOrDot) && AllInClass(y, DigitOrDot)
    requires IsFloatLiteral(x) && IsFloatLiteral(y)
    ensures Effect(TimeLine(x, y)) == LineEffect(None, None, Some(Decimal(x)), Some(Decimal(y)))
  {
    LiteralNotEmpty(x);
    LiteralNotEmpty(y);
    TimeLineCapture(x, y);
    TimeLineNotCounter(x, y, AsmInstrsPattern);
    TimeLineNotCounter(x, y, StackSpacePattern);
    OnlyTimes(TimeLine(x, y), x, y);
  }

  /** TrimSpace leaves a timing line as it is. */
  lemma TimeLineKept(x: string, y: string)
    ensures Scan(TimeLine(x, y)) == Effect(TimeLine(x, y))
  {
    var line := TimeLine(x, y);
    assert line[0] == TimeHead[0];
    assert line[|line| - 1] == TimeTail[|TimeTail| - 1];
    TrimSpaceKeeps(line);
  }

  /** Three effects, applied in order. */
  lemma ApplyThree(st: StatsValue, es: seq<LineEffect>)
    requires |es| == 3
    ensures ApplyAll(st, es) == Apply(Apply(Apply(st, es[0]), es[1]), es[2])
  {
    assert es[..1][..0] == [];
    assert ApplyAll(st, es[..1]) == Apply(st, es[0]);
    assert es[..2][..1] == es[..1];
    assert ApplyAll(st, es[..2]) == Apply(Apply(st, es[0]), es[1]);
    assert es[..|es| - 1] == es[..2];
  }

  /** A report of three lines is read line by line, in order. */
  lemma ThreeLines(l1: string, l2: string, l3: string)
    requires '\n' !in l1 && '\n' !in l2 && '\n' !in l3
    ensures Extract(Join([l1, l2, l3], '\n')) == Apply(Apply(Apply(ZeroStats, Scan(l1)), Scan(l2)), Scan(l3))
  {
    var lines := [l1, l2, l3];
    SplitJoin(lines, '\n');
    var es := LineEffects(lines);
    ApplyThree(ZeroStats, es);
  }

  /** parseTestOutput on a report made of an instruction-count line, a stack
      line and a timing line returns the two counts and the two times. */
  lemma ReportStats(d1: string, f1: string, d2: string, f2: string, x: string, y: string)
    requires CounterParts(d1, f1) && DecimalValue(d1) <= MaxInt
    requires CounterParts(d2, f2) && DecimalValue(d2) <= MaxInt
    requires AllInClass(x, DigitOrDot) && AllInClass(y, DigitOrDot)
    requires IsFloatLiteral(x) && IsFloatLiteral(y)
    ensures Extract(Join([AsmLine(d1, f1), StackLine(d2, f2), TimeLine(x, y)], '\n'))
         == StatsValue(DecimalValue(d1), DecimalValue(d2), Decimal(x), Decimal(y))
  {
    AsmLineNoBreak(d1, f1);
    StackLineNoBreak(d2, f2);
    TimeLineNoBreak(x, y);
    AsmLineEffect(d1, f1);
    StackLineEffect(d2, f2);
    TimeLineEffect(x, y);
    CountsThenTimes(AsmLine(d1, f1), StackLine(d2, f2), TimeLine(x, y),
                    DecimalValue(d1), DecimalValue(d2), Decimal(x), Decimal(y));
  }

  /** Each of the three lines writes its own fields, so the record holds
      what each wrote. */
  lemma CountsThenTimes(l1: string, l2: string, l3: string, a: int, b: int, u: Float64, v: Float64)
    requires '\n' !in l1 && '\n' !in l2 && '\n' !in l3
    requires Scan(l1) == LineEffect(Some(a), None, None, None)
    requires Scan(l2) == LineEffect(None, Some(b), None, None)
    requires Scan(l3) == LineEffect(None, None, Some(u), Some(v))
    ensures Extract(Join([l1, l2, l3], '\n')) == StatsValue(a, b, u, v)
  {
    ThreeLines(l1, l2, l3);
  }

  lemma CounterLineNoBreak(d: string, tag: string, filler: string, tail: string)
    requires AllInClass(d, Digit) && Lacks(tag, '\n') && '\n' !in filler && Lacks(tail, '\n')
    ensures '\n' !in d + tag + filler + tail
  {
    NotInDigits(d, '\n');
    NotInPieces(d, tag, filler, tail, '\n');
  }

  lemma AsmLineNoBreak(d: string, filler: string)
    requires CounterParts(d, filler)
    ensures '\n' !in AsmLine(d, filler)
  {
    AsmTexts();
    CounterLineNoBreak(d, AsmInstrsPattern.tag, filler, AsmInstrsPattern.tail);
  }

  lemma StackLineNoBreak(d: string, filler: string)
    requires CounterParts(d, filler)
    ensures '\n' !in StackLine(d, filler)
  {
    StackTexts();
    CounterLineNoBreak(d, StackSpacePattern.tag, filler, StackSpacePattern.tail);
  }

  lemma TimeLineNoBreak(x: string, y: string)
    requires AllInClass(x, DigitOrDot) && AllInClass(y, DigitOrDot)
    ensures '\n' !in TimeLine(x, y)
  {
    NotInDigits(x, '\n');
    NotInDigits(y, '\n');
    TimeTexts();
    NotInTimeLine(x, y, '\n');
  }

  /** The fixed texts of the timing pattern hold no `N` and no line break. */
  lemma TimeTexts()
    ensures Lacks(TimeHead, 'N') && Lacks(TimeMid, 'N') && Lacks(TimeTail, 'N')
    ensures Lacks(TimeHead, '\n') && Lacks(TimeMid, '\n') && Lacks(TimeTail, '\n')
  {
  }

  /** A character missing from the numerals and the fixed texts is missing
      from the timing line. */
  lemma NotInTimeLine(x: string, y: string, c: char)
    requires Lacks(TimeHead, c) && Lacks(TimeMid, c) && Lacks(TimeTail, c) && c !in x && c !in y
    ensures c !in TimeLine(x, y)
  {
    NotInPieces(TimeHead, x, TimeMid, y, c);
    NotInPieces(TimeHead + x + TimeMid + y, TimeTail, "", "", c);
    assert TimeHead + x + TimeMid + y + TimeTail + "" + "" == TimeLine(x, y);
  }

  /** The report shown at the head of this module. */
  const SampleReportText: string :=
    Join([AsmLine("1234", "               - "), StackLine("56", "-prologue-epilogue       - "),
          TimeLine("0.0421", "0.0450")], '\n')

  lemma SampleNumbers()
    ensures DecimalValue("1234") == 1234 && DecimalValue("56") == 56
  {
    assert "1234"[..3] == "123" && "123"[..2] == "12" && "12"[..1] == "1" && "1"[..0] == "";
    assert "56"[..1] == "5" && "5"[..0] == "";
  }

  lemma SampleParts()
    ensures CounterParts("1234", "               - ") && CounterParts("56", "-prologue-epilogue       - ")
  {
  }

  lemma SampleSeconds()
    ensures AllInClass("0.0421", DigitOrDot) && IsFloatLiteral("0.0421")
  {
    assert "0.0421"[..1] == "0" && "0.0421"[2..] == "0421";
  }

  lemma SampleWallSeconds()
    ensures AllInClass("0.0450", DigitOrDot) && IsFloatLiteral("0.0450")
  {
    assert "0.0450"[..1] == "0" && "0.0450"[2..] == "0450";
  }

  /** The sample report gives 1234 instructions, 56 bytes of stack, 0.0421
      seconds and 0.0450 seconds of wall clock. */
  lemma SampleReport()
    ensures Extract(SampleReportText) == StatsValue(1234, 56, Decimal("0.0421"), Decimal("0.0450"))
  {
    SampleNumbers();
    SampleParts();
    SampleSeconds();
    SampleWallSeconds();
    ReportStats("1234", "               - ", "56", "-prologue-epilogue       - ", "0.0421", "0.0450");
  }
}
