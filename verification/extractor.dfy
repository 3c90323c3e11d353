/**
 * The statistics extractor: the Stats record (main.go:28-34) and
 * parseTestOutput (main.go:69-119), which scans the diagnostic text of one
 * compiler run line by line and overwrites a field of the record whenever a
 * line matches that field's pattern.
 *
 * `Extract` is the specification: a left fold of one per-line update over
 * the lines. `ParseTestOutput` is the loop that mutates a fresh `Stats`
 * object, proved to produce `Extract`'s value; the lemmas state what the
 * fold promises.
 */
module Extractor {
  import opened Wrappers
  import opened Text
  import opened Numbers
  import opened Patterns

  /** The four fields of the record. */
  datatype Field = AsmInstrsField | StackSpaceField | SecondsField | WallSecondsField

  datatype FieldValue = IntValue(n: int) | FloatValue(x: Float64)

  /** The contents of a Stats record. */
  datatype StatsValue = StatsValue(asmInstrs: int, stackSpace: int, seconds: Float64, wallSeconds: Float64)
  {
    function Get(f: Field): FieldValue {
      match f
      case AsmInstrsField => IntValue(asmInstrs)
      case StackSpaceField => IntValue(stackSpace)
      case SecondsField => FloatValue(seconds)
      case WallSecondsField => FloatValue(wallSeconds)
    }
  }

  /** The record `new(Stats)` allocates. */
  const ZeroStats: StatsValue := StatsValue(0, 0, Zero, Zero)

  /** The fields one line writes, with the values it writes into them. */
  datatype LineEffect = LineEffect(asmInstrs: Option<int>, stackSpace: Option<int>,
                                   seconds: Option<Float64>, wallSeconds: Option<Float64>)
  {
    function Writes(f: Field): Option<FieldValue> {
      match f
      case AsmInstrsField => if asmInstrs.Some? then Some(IntValue(asmInstrs.value)) else None
      case StackSpaceField => if stackSpace.Some? then Some(IntValue(stackSpace.value)) else None
      case SecondsField => if seconds.Some? then Some(FloatValue(seconds.value)) else None
      case WallSecondsField => if wallSeconds.Some? then Some(FloatValue(wallSeconds.value)) else None
    }
  }

  const NoEffect: LineEffect := LineEffect(None, None, None, None)

  /** Overwrites the fields that `e` writes and keeps the others. */
  function Apply(st: StatsValue, e: LineEffect): StatsValue {
    StatsValue(
      if e.asmInstrs.Some? then e.asmInstrs.value else st.asmInstrs,
      if e.stackSpace.Some? then e.stackSpace.value else st.stackSpace,
      if e.seconds.Some? then e.seconds.value else st.seconds,
      if e.wallSeconds.Some? then e.wallSeconds.value else st.wallSeconds)
  }

  /** Each field after a line is what the line wrote into it, or what it
      held before when the line did not write it. */
  lemma ApplyField(st: StatsValue, e: LineEffect, f: Field)
    ensures Apply(st, e).Get(f) == if e.Writes(f).Some? then e.Writes(f).value else st.Get(f)
  {
  }

  /** What Atoi makes of the number a counter pattern captures on `line`,
      or None when the pattern does not match. */
  function CounterParse(p: Pattern, line: string): Option<IntParse>
    requires p.Counter? && WellFormed(p)
  {
    match FindStringSubmatch(p, line)
    case None => None
    case Some(ss) => Some(Atoi(ss[0]))
  }

  /** What Atof64 makes of the two numerals of the timing pattern on `line`,
      or None when the pattern does not match. */
  function TimeParse(line: string): Option<(FloatParse, FloatParse)> {
    match FindStringSubmatch(ExecTime, line)
    case None => None
    case Some(ss) => Some((Atof64(ss[0]), Atof64(ss[1])))
  }

  /** The writes one trimmed line makes (main.go:73-116), given what each
      pattern's conversion gives on it. Each match assigns the converted
      value, even when the conversion reports an error, and an error then ends
      the line (`continue`): the patterns after it are not tried. */
  function Combine(asm: Option<IntParse>, stack: Option<IntParse>, time: Option<(FloatParse, FloatParse)>): LineEffect {
    var asmWrite := if asm.Some? then Some(asm.value.value) else None;
    if asm.Some? && !asm.value.ok then LineEffect(asmWrite, None, None, None)
    else
      var stackWrite := if stack.Some? then Some(stack.value.value) else None;
      if stack.Some? && !stack.value.ok then LineEffect(asmWrite, stackWrite, None, None)
      else
        match time
        case None => LineEffect(asmWrite, stackWrite, None, None)
        case Some((secs, wall)) =>
          if !secs.ok then LineEffect(asmWrite, stackWrite, Some(secs.value), None)
          else LineEffect(asmWrite, stackWrite, Some(secs.value), Some(wall.value))
  }

  /** The writes one trimmed line makes. */
  function Effect(line: string): LineEffect {
    Combine(CounterParse(AsmInstrsPattern, line), CounterParse(StackSpacePattern, line), TimeParse(line))
  }

  /** What one line of the text writes: the line is trimmed first. */
  function Scan(line: string): LineEffect {
    Effect(TrimSpace(line))
  }

  /** What each line of `lines` writes, in order. */
  function LineEffects(lines: seq<string>): (es: seq<LineEffect>)
    ensures |es| == |lines|
  {
    seq(|lines|, k requires 0 <= k < |lines| => Scan(lines[k]))
  }

  /** The record after the writes `es`, in order, starting from `st`. */
  function ApplyAll(st: StatsValue, es: seq<LineEffect>): StatsValue
    decreases |es|
  {
    if es == [] then st
    else Apply(ApplyAll(st, es[..|es| - 1]), es[|es| - 1])
  }

  /** Folding one more effect in applies it last. */
  lemma ApplyAllStep(st: StatsValue, es: seq<LineEffect>, n: nat)
    requires n < |es|
    ensures ApplyAll(st, es[..n + 1]) == Apply(ApplyAll(st, es[..n]), es[n])
  {
    assert es[..n + 1][..n] == es[..n];
  }

  /** The record parseTestOutput returns for the diagnostic text `stderr`. */
  function Extract(stderr: string): StatsValue {
    ApplyAll(ZeroStats, LineEffects(Split(stderr, '\n')))
  }

  /** The mutable record of main.go:28-34. */
  class Stats {
    var asmInstrs: int
    var stackSpace: int
    var seconds: Float64
    var wallSeconds: Float64

    /** `new(Stats)`: every field at its zero value. */
    constructor ()
      ensures Value() == ZeroStats
    {
      asmInstrs, stackSpace, seconds, wallSeconds := 0, 0, Zero, Zero;
    }

    function Value(): StatsValue
      reads this
    {
      StatsValue(asmInstrs, stackSpace, seconds, wallSeconds)
    }
  }

  /** parseTestOutput: allocates a zeroed record, then for every line of
      `stderr`, trimmed, overwrites the fields whose pattern matches. It never
      fails; a conversion error only skips the rest of its line. */
  method ParseTestOutput(stderr: string) returns (res: Stats)
    ensures fresh(res)
    ensures res.Value() == Extract(stderr)
  {
    res := new Stats();
    var lines := Split(stderr, '\n');
    ghost var es := LineEffects(lines);
    for n := 0 to |lines|
      invariant res.Value() == ApplyAll(ZeroStats, es[..n])
    {
      var line := TrimSpace(lines[n]);
      ScanLine(res, line);
      ApplyAllStep(ZeroStats, es, n);
    }
    assert es[..|lines|] == es;
  }

  /** The body of parseTestOutput's loop for one trimmed line; an early
      return here is the loop's `continue`. */
  method ScanLine(res: Stats, line: string)
    modifies res
    ensures res.Value() == Apply(old(res.Value()), Effect(line))
  {
    ghost var asmP, stackP, timeP := CounterParse(AsmInstrsPattern, line), CounterParse(StackSpacePattern, line), TimeParse(line);
    assert Effect(line) == Combine(asmP, stackP, timeP);
    var asm := MatchCounter(AsmInstrsPattern, line);
    if asm.Some? {
      res.asmInstrs := asm.value.value;
      if !asm.value.ok {
        return;
      }
    }
    var stack := MatchCounter(StackSpacePattern, line);
    if stack.Some? {
      res.stackSpace := stack.value.value;
      if !stack.value.ok {
        return;
      }
    }
    var time := MatchTime(line);
    if time.Some? {
      res.seconds := time.value.0.value;
      if !time.value.0.ok {
        return;
      }
      res.wallSeconds := time.value.1.value;
    }
  }

  /** One counter pattern's step of the loop: test the line, take the
      captured number and convert it. */
  method MatchCounter(p: Pattern, line: string) returns (parsed: Option<IntParse>)
    requires p.Counter? && WellFormed(p)
    ensures parsed == CounterParse(p, line)
  {
    if !MatchString(p, line) {
      return None;
    }
    var ss := FindStringSubmatch(p, line);
    if |ss.value| != 1 {
      assert false;
      return None;
    }
    return Some(Atoi(ss.value[0]));
  }

  /** The timing pattern's step of the loop: test the line, take the two
      captured numerals and convert them. */
  method MatchTime(line: string) returns (parsed: Option<(FloatParse, FloatParse)>)
    ensures parsed == TimeParse(line)
  {
    if !MatchString(ExecTime, line) {
      return None;
    }
    var ss := FindStringSubmatch(ExecTime, line);
    if |ss.value| != 2 {
      assert false;
      return None;
    }
    var secs := Atof64(ss.value[0]);
    var wall := Atof64(ss.value[1]);
    return Some((secs, wall));
  }

  /** A line some pattern matches. */
  ghost predicate Recognised(line: string) {
    HasMatch(AsmInstrsPattern, line) || HasMatch(StackSpacePattern, line) || HasMatch(ExecTime, line)
  }

  /** A line writes some field exactly when one of the patterns matches it. */
  lemma EffectIffRecognised(line: string)
    ensures Effect(line) == NoEffect <==> !Recognised(line)
  {
    var asm, stack, time := CounterParse(AsmInstrsPattern, line), CounterParse(StackSpacePattern, line), TimeParse(line);
    assert Effect(line) == Combine(asm, stack, time);
    CombineWritesNothing(asm, stack, time);
    FindStringSubmatchIffMatch(AsmInstrsPattern, line);
    FindStringSubmatchIffMatch(StackSpacePattern, line);
    FindStringSubmatchIffMatch(ExecTime, line);
    assert asm.Some? <==> HasMatch(AsmInstrsPattern, line);
    assert stack.Some? <==> HasMatch(StackSpacePattern, line);
    assert time.Some? <==> HasMatch(ExecTime, line);
  }

  /** A match of the instruction-count pattern writes AsmInstrs; when its
      conversion fails nothing else is written. */
  lemma CombineAsm(asm: Option<IntParse>, stack: Option<IntParse>, time: Option<(FloatParse, FloatParse)>)
    requires asm.Some?
    ensures Combine(asm, stack, time).asmInstrs == Some(asm.value.value)
    ensures !asm.value.ok ==> Combine(asm, stack, time).stackSpace.None? && Combine(asm, stack, time).seconds.None?
                              && Combine(asm, stack, time).wallSeconds.None?
  {
  }

  /** CombineAsm for the parse results of one line. */
  lemma EffectOfAsm(line: string)
    requires CounterParse(AsmInstrsPattern, line).Some?
    ensures var asm := CounterParse(AsmInstrsPattern, line).value;
            && Effect(line).asmInstrs == Some(asm.value)
            && (!asm.ok ==> Effect(line).stackSpace.None? && Effect(line).seconds.None? && Effect(line).wallSeconds.None?)
  {
    var asm, stack, time := CounterParse(AsmInstrsPattern, line), CounterParse(StackSpacePattern, line), TimeParse(line);
    assert Effect(line) == Combine(asm, stack, time);
    CombineAsm(asm, stack, time);
  }

  /** When the instruction-count pattern did not match, or its conversion
      succeeded, a match of the stack pattern writes StackSpace; when the stack
      conversion fails nothing after it is written. */
  lemma CombineStack(asm: Option<IntParse>, stack: Option<IntParse>, time: Option<(FloatParse, FloatParse)>)
    requires asm.None? || asm.value.ok
    requires stack.Some?
    ensures asm.None? ==> Combine(asm, stack, time).asmInstrs.None?
    ensures Combine(asm, stack, time).stackSpace == Some(stack.value.value)
    ensures !stack.value.ok ==> Combine(asm, stack, time).seconds.None? && Combine(asm, stack, time).wallSeconds.None?
  {
  }

  /** Nothing is written exactly when no pattern matched. */
  lemma CombineWritesNothing(asm: Option<IntParse>, stack: Option<IntParse>, time: Option<(FloatParse, FloatParse)>)
    ensures Combine(asm, stack, time) == NoEffect <==> asm.None? && stack.None? && time.None?
  {
  }

  /** A field is written only when its own pattern matches the line. */
  lemma WritesNeedMatch(line: string)
    ensures Effect(line).asmInstrs.Some? ==> HasMatch(AsmInstrsPattern, line)
    ensures Effect(line).stackSpace.Some? ==> HasMatch(StackSpacePattern, line)
    ensures Effect(line).seconds.Some? || Effect(line).wallSeconds.Some? ==> HasMatch(ExecTime, line)
  {
    var asm, stack, time := CounterParse(AsmInstrsPattern, line), CounterParse(StackSpacePattern, line), TimeParse(line);
    assert Effect(line) == Combine(asm, stack, time);
    FindStringSubmatchIffMatch(AsmInstrsPattern, line);
    FindStringSubmatchIffMatch(StackSpacePattern, line);
    FindStringSubmatchIffMatch(ExecTime, line);
  }

  /** Writes of nothing leave the record as it was. */
  lemma {:induction false} NoWritesKeep(st: StatsValue, es: seq<LineEffect>)
    requires forall k :: 0 <= k < |es| ==> es[k] == NoEffect
    ensures ApplyAll(st, es) == st
    decreases |es|
  {
    if es != [] {
      NoWritesKeep(st, es[..|es| - 1]);
    }
  }

  /** Text in which no trimmed line matches a pattern gives the all-zero
      record. */
  lemma NoStatisticsAllZero(stderr: string)
    requires forall line :: line in Split(stderr, '\n') ==> !Recognised(TrimSpace(line))
    ensures Extract(stderr) == ZeroStats
  {
    var lines := Split(stderr, '\n');
    var es := LineEffects(lines);
    forall k | 0 <= k < |es| ensures es[k] == NoEffect {
      assert lines[k] in lines;
      EffectIffRecognised(TrimSpace(lines[k]));
    }
    NoWritesKeep(ZeroStats, es);
  }

  /** A field none of the writes `es` touches keeps its value. */
  lemma {:induction false} UnwrittenFieldKeeps(st: StatsValue, es: seq<LineEffect>, f: Field)
    requires forall k :: 0 <= k < |es| ==> es[k].Writes(f).None?
    ensures ApplyAll(st, es).Get(f) == st.Get(f)
    decreases |es|
  {
    if es != [] {
      UnwrittenFieldKeeps(st, es[..|es| - 1], f);
      ApplyField(ApplyAll(st, es[..|es| - 1]), es[|es| - 1], f);
    }
  }

  /** The last of the writes `es` that touches a field decides its value. */
  lemma {:induction false} LastWriteWins(st: StatsValue, es: seq<LineEffect>, f: Field, k: nat)
    requires k < |es| && es[k].Writes(f).Some?
    requires forall j :: k < j < |es| ==> es[j].Writes(f).None?
    ensures ApplyAll(st, es).Get(f) == es[k].Writes(f).value
    decreases |es|
  {
    var last := |es| - 1;
    if k < last {
      LastWriteWins(st, es[..last], f, k);
    }
    ApplyField(ApplyAll(st, es[..last]), es[last], f);
  }

  /** For the whole text: a field ends with the value that the last line
      writing it wrote, and stays zero when no line writes it. */
  lemma ExtractField(stderr: string, f: Field)
    ensures var es := LineEffects(Split(stderr, '\n'));
            (forall k :: 0 <= k < |es| ==> es[k].Writes(f).None?) ==> Extract(stderr).Get(f) == ZeroStats.Get(f)
    ensures var es := LineEffects(Split(stderr, '\n'));
            forall k :: 0 <= k < |es| && es[k].Writes(f).Some? && (forall j :: k < j < |es| ==> es[j].Writes(f).None?) ==>
              Extract(stderr).Get(f) == es[k].Writes(f).value
  {
    var es := LineEffects(Split(stderr, '\n'));
    if forall k :: 0 <= k < |es| ==> es[k].Writes(f).None? {
      UnwrittenFieldKeeps(ZeroStats, es, f);
    }
    forall k | 0 <= k < |es| && es[k].Writes(f).Some? && (forall j :: k < j < |es| ==> es[j].Writes(f).None?)
      ensures Extract(stderr).Get(f) == es[k].Writes(f).value
    {
      LastWriteWins(ZeroStats, es, f, k);
    }
  }

  /** Spaces around a line change nothing: the line is trimmed first. */
  lemma PaddingIgnored(lead: string, line: string, trail: string)
    requires AllSpace(lead) && AllSpace(trail)
    ensures Scan(lead + line + trail) == Scan(line)
  {
    TrimSpacePadded(lead, line, trail);
  }

  /** When the instruction-count pattern's leftmost capture on a line is
      `d`, the line sets AsmInstrs to the value of `d`; a value past MaxInt
      stores MaxInt and ends the line, so nothing else is written. */
  lemma AsmInstrsLine(line: string, d: string)
    requires FindStringSubmatch(AsmInstrsPattern, line) == Some([d])
    ensures |d| > 0 && AllInClass(d, Digit)
    ensures Effect(line).asmInstrs == Some(if DecimalValue(d) <= MaxInt then DecimalValue(d) else MaxInt)
    ensures DecimalValue(d) > MaxInt ==>
              Effect(line).stackSpace.None? && Effect(line).seconds.None? && Effect(line).wallSeconds.None?
  {
    assert AreGroupTexts(AsmInstrsPattern, [d]);
    EffectOfAsm(line);
  }

  /** When the stack pattern's leftmost capture on a line is `d`, and the
      instruction-count pattern either does not match the line or converts
      without error, the line sets StackSpace to the value of `d`; a value past
      MaxInt stores MaxInt and ends the line. AsmInstrs is left alone exactly
      when the instruction-count pattern does not match. */
  lemma StackSpaceLine(line: string, d: string)
    requires FindStringSubmatch(StackSpacePattern, line) == Some([d])
    requires CounterParse(AsmInstrsPattern, line).None? || CounterParse(AsmInstrsPattern, line).value.ok
    ensures |d| > 0 && AllInClass(d, Digit)
    ensures Effect(line).asmInstrs.None? <==> !HasMatch(AsmInstrsPattern, line)
    ensures Effect(line).stackSpace == Some(if DecimalValue(d) <= MaxInt then DecimalValue(d) else MaxInt)
    ensures DecimalValue(d) > MaxInt ==> Effect(line).seconds.None? && Effect(line).wallSeconds.None?
  {
    assert AreGroupTexts(StackSpacePattern, [d]);
    FindStringSubmatchIffMatch(AsmInstrsPattern, line);
    var asm, stack, time := CounterParse(AsmInstrsPattern, line), CounterParse(StackSpacePattern, line), TimeParse(line);
    assert stack == Some(Atoi(d));
    assert Effect(line) == Combine(asm, stack, time);
    CombineStack(asm, stack, time);
    if asm.Some? {
      CombineAsm(asm, stack, time);
    }
  }

  /** A line on which both counter patterns match, with numbers that fit in
      an int, writes both counters. */
  lemma BothCountersLine(line: string, d1: string, d2: string)
    requires FindStringSubmatch(AsmInstrsPattern, line) == Some([d1])
    requires FindStringSubmatch(StackSpacePattern, line) == Some([d2])
    requires AllInClass(d1, Digit) && AllInClass(d2, Digit)
    requires DecimalValue(d1) <= MaxInt && DecimalValue(d2) <= MaxInt
    ensures Effect(line).asmInstrs == Some(DecimalValue(d1))
    ensures Effect(line).stackSpace == Some(DecimalValue(d2))
  {
    AsmInstrsLine(line, d1);
    assert CounterParse(AsmInstrsPattern, line) == Some(Atoi(d1));
    StackSpaceLine(line, d2);
  }

  /** When the timing pattern's captures on a line are `x` and `y`, and each
      counter pattern either does not match the line or converts without
      error, the line sets Seconds to `x` converted and, when that conversion
      succeeds, WallSeconds to `y` converted; a numeral that does not convert
      stores Zero. */
  lemma ExecTimeLine(line: string, x: string, y: string)
    requires CounterParse(AsmInstrsPattern, line).None? || CounterParse(AsmInstrsPattern, line).value.ok
    requires CounterParse(StackSpacePattern, line).None? || CounterParse(StackSpacePattern, line).value.ok
    requires FindStringSubmatch(ExecTime, line) == Some([x, y])
    ensures Effect(line).seconds == Some(if IsFloatLiteral(x) then Decimal(x) else Zero)
    ensures Effect(line).wallSeconds == if IsFloatLiteral(x) then Some(if IsFloatLiteral(y) then Decimal(y) else Zero) else None
  {
    assert AreGroupTexts(ExecTime, [x, y]);
    var asm, stack, time := CounterParse(AsmInstrsPattern, line), CounterParse(StackSpacePattern, line), TimeParse(line);
    assert time == Some((Atof64(x), Atof64(y)));
    assert Effect(line) == Combine(asm, stack, time);
  }
}
