/**
 * The three regular expressions of main.go:23-25, each written out as a
 * hand-made matcher. `IsMatch` states the language of each expression (what
 * a match starting at a given index, with given capture groups, is);
 * `MatchAt` computes the match that starts at one given index, and
 * `FindFrom`, `MatchString` and `FindStringSubmatch` search for the leftmost
 * match; all of them are proved to agree with it. In each pattern every
 * repeated class is followed by a character outside that class, so a match
 * is fixed by where it starts: leftmost-first and leftmost-longest
 * semantics give the same captures.
 */
module Patterns {
  import opened Wrappers
  import opened Text

  /** A counter pattern `([0-9]+)<tag>[^N]+<tail>`, or the timing pattern
      `Total Execution Time: ([0-9.]+) seconds \(([0-9.]+) wall clock\)`. */
  datatype Pattern = Counter(tag: string, tail: string) | ExecTime

  /** The tail is the text "Number of bytes used for stack in all functions";
      it is written as two shorter literals because the verifier does not look
      into the characters of a literal this long. */
  const StackSpacePattern: Pattern := Counter(" pei", "Number of bytes used " + "for stack in all functions")
  const AsmInstrsPattern: Pattern := Counter(" asm-printer", "Number of machine instrs printed")
  const TimeHead: string := "Total Execution Time: "
  const TimeMid: string := " seconds ("
  const TimeTail: string := " wall clock)"

  /** What the matchers rely on: a counter's tag starts with a non-digit and
      its tail with the `N` that ends the `[^N]+` filler. */
  predicate WellFormed(p: Pattern) {
    p.Counter? ==> |p.tag| > 0 && !IsDigit(p.tag[0]) && |p.tail| > 0 && p.tail[0] == 'N'
  }

  function GroupCount(p: Pattern): nat {
    if p.Counter? then 1 else 2
  }

  /** The class every capture group of `p` is a run of. */
  function GroupClass(p: Pattern): CharClass {
    if p.Counter? then Digit else DigitOrDot
  }

  /** The text `s[lo..hi]`. */
  datatype Span = Span(lo: nat, hi: nat)

  predicate HasPrefixAt(s: string, i: nat, lit: string) {
    i + |lit| <= |s| && s[i..i + |lit|] == lit
  }

  /** `s[sp.lo..sp.hi]` is a non-empty run of `cls`. */
  ghost predicate IsRun(s: string, sp: Span, cls: CharClass) {
    sp.lo < sp.hi <= |s| && forall k :: sp.lo <= k < sp.hi ==> InClass(s[k], cls)
  }

  /** The literal `tag` at `j`, then `[^N]+` up to `m`, then the literal `tail`. */
  ghost predicate TagFillerTail(s: string, j: nat, m: nat, tag: string, tail: string) {
    HasPrefixAt(s, j, tag) && IsRun(s, Span(j + |tag|, m), NotN) && HasPrefixAt(s, m, tail)
  }

  /** The expression `p` matches a part of `s` that starts at index `i`,
      and `g` are the spans of its capture groups. */
  ghost predicate IsMatch(p: Pattern, s: string, i: nat, g: seq<Span>) {
    && |g| == GroupCount(p)
    && match p
       case Counter(tag, tail) =>
         && g[0].lo == i && IsRun(s, g[0], Digit)
         && exists m :: TagFillerTail(s, g[0].hi, m, tag, tail)
       case ExecTime =>
         && HasPrefixAt(s, i, TimeHead)
         && g[0].lo == i + |TimeHead| && IsRun(s, g[0], DigitOrDot) && HasPrefixAt(s, g[0].hi, TimeMid)
         && g[1].lo == g[0].hi + |TimeMid| && IsRun(s, g[1], DigitOrDot) && HasPrefixAt(s, g[1].hi, TimeTail)
  }

  /** Some part of `s` matches `p`. */
  ghost predicate HasMatch(p: Pattern, s: string) {
    exists i, g :: IsMatch(p, s, i, g)
  }

  /** A counter pattern matches only where its tail occurs, at an `N`. */
  lemma CounterMatchHasTail(p: Pattern, s: string)
    requires p.Counter? && WellFormed(p)
    ensures HasMatch(p, s) ==> exists m :: 0 <= m < |s| && s[m] == 'N' && HasPrefixAt(s, m, p.tail)
  {
    if HasMatch(p, s) {
      var i: nat, g: seq<Span> :| IsMatch(p, s, i, g);
      var m: nat :| TagFillerTail(s, g[0].hi, m, p.tag, p.tail);
      assert s[m..m + |p.tail|][0] == s[m];
    }
  }

  /** The timing pattern matches only where its head occurs, at a `T`. */
  lemma ExecTimeMatchHasHead(s: string)
    ensures HasMatch(ExecTime, s) ==> 'T' in s
  {
    if HasMatch(ExecTime, s) {
      var i: nat, g: seq<Span> :| IsMatch(ExecTime, s, i, g);
      assert s[i..i + |TimeHead|][0] == s[i];
    }
  }

  /** The match of `p` that starts first in `s`. */
  ghost predicate IsLeftmostMatch(p: Pattern, s: string, i: nat, g: seq<Span>) {
    IsMatch(p, s, i, g) && forall i', g' :: IsMatch(p, s, i', g') ==> i <= i'
  }

  /** The end of the longest run of `cls` that starts at `i`. */
  function RunEnd(s: string, i: nat, cls: CharClass): (j: nat)
    requires i <= |s|
    ensures i <= j <= |s|
    ensures forall k :: i <= k < j ==> InClass(s[k], cls)
    ensures j < |s| ==> !InClass(s[j], cls)
    decreases |s| - i
  {
    if i < |s| && InClass(s[i], cls) then RunEnd(s, i + 1, cls) else i
  }

  /** A run of `cls` from `i` that is followed by a character outside `cls`
      (or by the end) ends where RunEnd says. */
  lemma RunEndAt(s: string, i: nat, cls: CharClass, h: nat)
    requires i <= h <= |s|
    requires forall k :: i <= k < h ==> InClass(s[k], cls)
    requires h < |s| ==> !InClass(s[h], cls)
    ensures RunEnd(s, i, cls) == h
  {
  }

  /** Whether `p` matches from index `i` of `s`, and with which groups. */
  function MatchAt(p: Pattern, s: string, i: nat): (r: Option<seq<Span>>)
    requires i <= |s|
    ensures r.Some? ==> IsMatch(p, s, i, r.value)
  {
    match p
    case Counter(tag, tail) =>
      var j := RunEnd(s, i, Digit);
      if i < j && HasPrefixAt(s, j, tag) then
        var a := j + |tag|;
        var m := RunEnd(s, a, NotN);
        if a < m && HasPrefixAt(s, m, tail) then
          assert TagFillerTail(s, j, m, tag, tail);
          Some([Span(i, j)])
        else None
      else None
    case ExecTime =>
      if HasPrefixAt(s, i, TimeHead) then
        var a := i + |TimeHead|;
        var j := RunEnd(s, a, DigitOrDot);
        if a < j && HasPrefixAt(s, j, TimeMid) then
          var b := j + |TimeMid|;
          var l := RunEnd(s, b, DigitOrDot);
          if b < l && HasPrefixAt(s, l, TimeTail) then Some([Span(a, j), Span(b, l)]) else None
        else None
      else None
  }

  /** MatchAt misses no match, and a match is fixed by where it starts. */
  lemma MatchAtComplete(p: Pattern, s: string, i: nat, g: seq<Span>)
    requires WellFormed(p) && i <= |s| && IsMatch(p, s, i, g)
    ensures MatchAt(p, s, i) == Some(g)
  {
    if p.Counter? {
      CounterMatchAtComplete(p, s, i, g);
    } else {
      ExecTimeMatchAtComplete(s, i, g);
    }
  }

  lemma CounterMatchAtComplete(p: Pattern, s: string, i: nat, g: seq<Span>)
    requires p.Counter? && WellFormed(p) && i <= |s| && IsMatch(p, s, i, g)
    ensures MatchAt(p, s, i) == Some(g)
  {
    var j := g[0].hi;
    var m: nat :| TagFillerTail(s, j, m, p.tag, p.tail);
    LitStart(s, j, p.tag);
    RunEndAt(s, i, Digit, j);
    LitStart(s, m, p.tail);
    RunEndAt(s, j + |p.tag|, NotN, m);
    assert g == [Span(i, j)];
  }

  lemma ExecTimeMatchAtComplete(s: string, i: nat, g: seq<Span>)
    requires i <= |s| && IsMatch(ExecTime, s, i, g)
    ensures MatchAt(ExecTime, s, i) == Some(g)
  {
    var j, l := g[0].hi, g[1].hi;
    LitStart(s, j, TimeMid);
    LitStart(s, l, TimeTail);
    assert TimeMid[0] == ' ' && TimeTail[0] == ' ';
    RunEndAt(s, g[0].lo, DigitOrDot, j);
    RunEndAt(s, g[1].lo, DigitOrDot, l);
    assert g == [Span(g[0].lo, j), Span(g[1].lo, l)];
  }

  /** An occurrence of a non-empty `lit` at `j` puts its first character there. */
  lemma LitStart(s: string, j: nat, lit: string)
    requires HasPrefixAt(s, j, lit) && |lit| > 0
    ensures j < |s| && s[j] == lit[0]
  {
    assert s[j..j + |lit|][0] == s[j];
  }

  /** The leftmost match of `p` in `s` that starts at or after `i`. */
  function FindFrom(p: Pattern, s: string, i: nat): (r: Option<(nat, seq<Span>)>)
    requires WellFormed(p) && i <= |s|
    ensures r.Some? ==> i <= r.value.0 <= |s| && IsMatch(p, s, r.value.0, r.value.1)
    ensures r.Some? ==> forall k, g :: i <= k < r.value.0 ==> !IsMatch(p, s, k, g)
    ensures r.None? ==> forall k, g :: i <= k ==> !IsMatch(p, s, k, g)
    decreases |s| - i
  {
    NoMatchPastEnd(p, s);
    forall g | IsMatch(p, s, i, g) ensures MatchAt(p, s, i) == Some(g) {
      MatchAtComplete(p, s, i, g);
    }
    match MatchAt(p, s, i)
    case Some(g) => Some((i, g))
    case None => if i == |s| then None else FindFrom(p, s, i + 1)
  }

  /** No match starts at the end of the text or beyond it. */
  lemma NoMatchPastEnd(p: Pattern, s: string)
    ensures forall k, g :: |s| <= k ==> !IsMatch(p, s, k, g)
  {
  }

  /** `regexp.MatchString`: whether some part of `s` matches `p`
      (see MatchStringIffMatch). */
  function MatchString(p: Pattern, s: string): bool
    requires WellFormed(p)
  {
    FindFrom(p, s, 0).Some?
  }

  /** MatchString answers yes exactly when some match of `p` exists in `s`. */
  lemma MatchStringIffMatch(p: Pattern, s: string)
    requires WellFormed(p)
    ensures MatchString(p, s) <==> exists i, g :: IsMatch(p, s, i, g)
  {
    if !MatchString(p, s) {
      forall i, g ensures !IsMatch(p, s, i, g) {
        NoMatchPastEnd(p, s);
      }
    }
  }

  /** Every span of `g` lies within `s`. */
  predicate InBounds(s: string, g: seq<Span>) {
    forall k :: 0 <= k < |g| ==> g[k].lo <= g[k].hi <= |s|
  }

  /** The texts of the spans `g` of `s`. */
  function Texts(s: string, g: seq<Span>): (t: seq<string>)
    requires InBounds(s, g)
    ensures |t| == |g|
    ensures forall k :: 0 <= k < |g| ==> t[k] == s[g[k].lo..g[k].hi]
  {
    seq(|g|, k requires 0 <= k < |g| => s[g[k].lo..g[k].hi])
  }

  /** The text of a run is all in the run's class. */
  lemma RunText(s: string, sp: Span, cls: CharClass)
    requires IsRun(s, sp, cls)
    ensures |s[sp.lo..sp.hi]| > 0 && AllInClass(s[sp.lo..sp.hi], cls)
  {
    var t := s[sp.lo..sp.hi];
    forall c | 0 <= c < |t| ensures InClass(t[c], cls) {
      assert t[c] == s[sp.lo + c];
    }
  }

  /** What FindFrom finds from the start is the leftmost match. */
  lemma FoundIsLeftmost(p: Pattern, s: string)
    requires WellFormed(p) && FindFrom(p, s, 0).Some?
    ensures IsLeftmostMatch(p, s, FindFrom(p, s, 0).value.0, FindFrom(p, s, 0).value.1)
  {
  }

  /** `t` holds one non-empty run of the group class per capture group of `p`. */
  predicate AreGroupTexts(p: Pattern, t: seq<string>) {
    |t| == GroupCount(p) && forall k :: 0 <= k < |t| ==> |t[k]| > 0 && AllInClass(t[k], GroupClass(p))
  }

  /** The groups of a match are non-empty runs of the pattern's group class. */
  lemma GroupTexts(p: Pattern, s: string, g: seq<Span>)
    requires exists i :: IsMatch(p, s, i, g)
    ensures InBounds(s, g)
    ensures AreGroupTexts(p, Texts(s, g))
  {
    forall k | 0 <= k < |g| ensures IsRun(s, g[k], GroupClass(p)) {
    }
    forall k | 0 <= k < |g| ensures |Texts(s, g)[k]| > 0 && AllInClass(Texts(s, g)[k], GroupClass(p)) {
      RunText(s, g[k], GroupClass(p));
    }
  }

  /** `regexp.FindStringSubmatch` without its first element (the whole
      match): the capture-group texts of the leftmost match of `p`, or None
      when nothing matches. Every group is a non-empty run of its class, and
      there are always GroupCount(p) of them, so the length checks that
      main.go makes after a successful MatchString never fail. */
  function FindStringSubmatch(p: Pattern, s: string): (r: Option<seq<string>>)
    requires WellFormed(p)
    ensures r.Some? <==> MatchString(p, s)
    ensures r.Some? ==> AreGroupTexts(p, r.value)
  {
    var found := FindFrom(p, s, 0);
    if found.None? then None
    else
      GroupTexts(p, s, found.value.1);
      Some(Texts(s, found.value.1))
  }

  /** FindStringSubmatch finds something exactly when some match exists. */
  lemma FindStringSubmatchIffMatch(p: Pattern, s: string)
    requires WellFormed(p)
    ensures FindStringSubmatch(p, s).Some? <==> exists i, g :: IsMatch(p, s, i, g)
  {
    MatchStringIffMatch(p, s);
  }

  /** What FindStringSubmatch finds are the group texts of the leftmost match. */
  lemma FindStringSubmatchIsLeftmost(p: Pattern, s: string)
    requires WellFormed(p) && FindStringSubmatch(p, s).Some?
    ensures exists i, g :: IsLeftmostMatch(p, s, i, g) && InBounds(s, g) && FindStringSubmatch(p, s).value == Texts(s, g)
  {
    var found := FindFrom(p, s, 0);
    FoundIsLeftmost(p, s);
    FoundTexts(p, s);
    var i, g := found.value.0, found.value.1;
    assert IsLeftmostMatch(p, s, i, g) && InBounds(s, g) && FindStringSubmatch(p, s).value == Texts(s, g);
  }

  lemma FoundTexts(p: Pattern, s: string)
    requires WellFormed(p) && FindFrom(p, s, 0).Some?
    ensures InBounds(s, FindFrom(p, s, 0).value.1)
    ensures FindStringSubmatch(p, s) == Some(Texts(s, FindFrom(p, s, 0).value.1))
  {
    GroupTexts(p, s, FindFrom(p, s, 0).value.1);
  }

  /** The capture of a counter pattern is a whole run of digits: the
      leftmost match never starts in the middle of a number. */
  lemma CounterCaptureIsWholeNumber(p: Pattern, s: string)
    requires p.Counter? && WellFormed(p) && FindFrom(p, s, 0).Some?
    ensures var i := FindFrom(p, s, 0).value.0; i == 0 || !IsDigit(s[i - 1])
  {
    var (i, g) := FindFrom(p, s, 0).value;
    if i > 0 {
      ExtendBack(p, s, i, g);
    }
  }

  /** A counter match preceded by a digit also matches one index earlier. */
  lemma ExtendBack(p: Pattern, s: string, i: nat, g: seq<Span>)
    requires p.Counter? && 0 < i && IsMatch(p, s, i, g)
    ensures IsDigit(s[i - 1]) ==> IsMatch(p, s, i - 1, [Span(i - 1, g[0].hi)])
  {
    var m: nat :| TagFillerTail(s, g[0].hi, m, p.tag, p.tail);
    assert TagFillerTail(s, [Span(i - 1, g[0].hi)][0].hi, m, p.tag, p.tail);
  }

  /** A line that opens with digits, the counter's tag, a filler without
      `N` and the counter's tail yields those digits as its capture. */
  lemma CounterLineCapture(p: Pattern, d: string, filler: string, rest: string)
    requires p.Counter? && WellFormed(p)
    requires |d| > 0 && AllInClass(d, Digit) && |filler| > 0 && AllInClass(filler, NotN)
    ensures FindStringSubmatch(p, d + p.tag + filler + p.tail + rest) == Some([d])
  {
    var s := d + p.tag + filler + p.tail + rest;
    CounterLineMatch(p, d, filler, rest);
    FirstMatchAtStart(p, s, [Span(0, |d|)]);
    assert s[0..|d|] == d;
    assert Texts(s, [Span(0, |d|)]) == [d];
  }

  lemma CounterLineMatch(p: Pattern, d: string, filler: string, rest: string)
    requires p.Counter? && WellFormed(p)
    requires |d| > 0 && AllInClass(d, Digit) && |filler| > 0 && AllInClass(filler, NotN)
    ensures IsMatch(p, d + p.tag + filler + p.tail + rest, 0, [Span(0, |d|)])
  {
    var (tag, tail) := (p.tag, p.tail);
    var u1 := tag + (filler + (tail + rest));
    assert d + tag + filler + tail + rest == d + u1;
    CounterTail(tag, filler, tail, rest);
    RunStart(d, u1, Digit);
    PrefixShift(d, u1, 0, tag);
    RunShift(d, u1, Span(|tag|, |tag| + |filler|), NotN);
    PrefixShift(d, u1, |tag| + |filler|, tail);
    CounterMatchOf(p, d + u1, 0, |d|, |d| + |tag| + |filler|);
  }

  /** The counter pattern matches from `i` when its parts are where they should be. */
  lemma CounterMatchOf(p: Pattern, s: string, i: nat, j: nat, m: nat)
    requires p.Counter? && IsRun(s, Span(i, j), Digit)
    requires HasPrefixAt(s, j, p.tag) && IsRun(s, Span(j + |p.tag|, m), NotN) && HasPrefixAt(s, m, p.tail)
    ensures IsMatch(p, s, i, [Span(i, j)])
  {
    assert TagFillerTail(s, j, m, p.tag, p.tail);
  }

  /** The part of a counter line after its digits. */
  lemma CounterTail(tag: string, filler: string, tail: string, rest: string)
    requires |filler| > 0 && AllInClass(filler, NotN)
    ensures var u1 := tag + (filler + (tail + rest));
            && HasPrefixAt(u1, 0, tag) && IsRun(u1, Span(|tag|, |tag| + |filler|), NotN)
            && HasPrefixAt(u1, |tag| + |filler|, tail)
  {
    var u3 := tail + rest;
    var u2 := filler + u3;
    PrefixStart(tail, rest);
    RunStart(filler, u3, NotN);
    PrefixShift(filler, u3, 0, tail);
    PrefixStart(tag, u2);
    RunShift(tag, u2, Span(0, |filler|), NotN);
    PrefixShift(tag, u2, |filler|, tail);
  }

  /** A line that opens with the timing text yields its two numerals. */
  lemma ExecTimeLineCapture(x: string, y: string, rest: string)
    requires |x| > 0 && AllInClass(x, DigitOrDot) && |y| > 0 && AllInClass(y, DigitOrDot)
    ensures FindStringSubmatch(ExecTime, TimeHead + x + TimeMid + y + TimeTail + rest) == Some([x, y])
  {
    var s := TimeHead + x + TimeMid + y + TimeTail + rest;
    var a := |TimeHead|;
    var b := a + |x| + |TimeMid|;
    var g := [Span(a, a + |x|), Span(b, b + |y|)];
    ExecTimeTexts(x, y, rest);
    TextsOfTwo(s, g, x, y);
    ExecTimeLineMatch(x, y, rest);
    FirstMatchAtStart(ExecTime, s, g);
  }

  lemma TextsOfTwo(s: string, g: seq<Span>, x: string, y: string)
    requires |g| == 2 && g[0].lo <= g[0].hi <= |s| && g[1].lo <= g[1].hi <= |s|
    requires s[g[0].lo..g[0].hi] == x && s[g[1].lo..g[1].hi] == y
    ensures Texts(s, g) == [x, y]
  {
  }

  lemma ExecTimeTexts(x: string, y: string, rest: string)
    ensures var s := TimeHead + x + TimeMid + y + TimeTail + rest;
            var b := |TimeHead| + |x| + |TimeMid|;
            s[|TimeHead|..|TimeHead| + |x|] == x && s[b..b + |y|] == y
  {
    TwoTexts(TimeHead, x, TimeMid, y, TimeTail, rest);
  }

  /** Where the two numerals sit in `h + x + m + y + t + rest`. */
  lemma TwoTexts(h: string, x: string, m: string, y: string, t: string, rest: string)
    ensures var s := h + x + m + y + t + rest;
            var b := |h| + |x| + |m|;
            s[|h|..|h| + |x|] == x && s[b..b + |y|] == y
  {
    var s := h + x + m + y + t + rest;
    assert forall k :: 0 <= k < |x| ==> s[|h| + k] == x[k];
    assert forall k :: 0 <= k < |y| ==> s[|h| + |x| + |m| + k] == y[k];
  }

  lemma ExecTimeLineMatch(x: string, y: string, rest: string)
    requires |x| > 0 && AllInClass(x, DigitOrDot) && |y| > 0 && AllInClass(y, DigitOrDot)
    ensures IsMatch(ExecTime, TimeHead + x + TimeMid + y + TimeTail + rest, 0,
                    [Span(|TimeHead|, |TimeHead| + |x|),
                     Span(|TimeHead| + |x| + |TimeMid|, |TimeHead| + |x| + |TimeMid| + |y|)])
  {
    TimeShape(TimeHead, TimeMid, TimeTail, x, y, rest);
  }

  /** The shape of `h + x + m + y + t + rest`: the fixed texts at their
      places and the numerals as runs between them. */
  lemma TimeShape(h: string, m: string, t: string, x: string, y: string, rest: string)
    requires |x| > 0 && AllInClass(x, DigitOrDot) && |y| > 0 && AllInClass(y, DigitOrDot)
    ensures var s := h + x + m + y + t + rest;
            && HasPrefixAt(s, 0, h)
            && IsRun(s, Span(|h|, |h| + |x|), DigitOrDot) && HasPrefixAt(s, |h| + |x|, m)
            && IsRun(s, Span(|h| + |x| + |m|, |h| + |x| + |m| + |y|), DigitOrDot)
            && HasPrefixAt(s, |h| + |x| + |m| + |y|, t)
  {
    var u2 := x + (m + (y + (t + rest)));
    assert h + x + m + y + t + rest == h + u2;
    Numerals(m, t, x, y, rest);
    var (i, j) := (|x| + |m|, |x| + |m| + |y|);
    PrefixStart(h, u2);
    RunShift(h, u2, Span(0, |x|), DigitOrDot);
    PrefixShift(h, u2, |x|, m);
    RunShift(h, u2, Span(i, j), DigitOrDot);
    PrefixShift(h, u2, j, t);
  }

  /** The part of a timing line after its head. */
  lemma Numerals(m: string, t: string, x: string, y: string, rest: string)
    requires |x| > 0 && AllInClass(x, DigitOrDot) && |y| > 0 && AllInClass(y, DigitOrDot)
    ensures var u2 := x + (m + (y + (t + rest)));
            && IsRun(u2, Span(0, |x|), DigitOrDot) && HasPrefixAt(u2, |x|, m)
            && IsRun(u2, Span(|x| + |m|, |x| + |m| + |y|), DigitOrDot)
            && HasPrefixAt(u2, |x| + |m| + |y|, t)
  {
    var u5 := t + rest;
    var u4 := y + u5;
    var u3 := m + u4;
    PrefixStart(t, rest);
    RunStart(y, u5, DigitOrDot);
    PrefixShift(y, u5, 0, t);
    PrefixStart(m, u4);
    RunShift(m, u4, Span(0, |y|), DigitOrDot);
    PrefixShift(m, u4, |y|, t);
    RunStart(x, u3, DigitOrDot);
    PrefixShift(x, u3, 0, m);
    RunShift(x, u3, Span(|m|, |m| + |y|), DigitOrDot);
    PrefixShift(x, u3, |m| + |y|, t);
  }

  lemma PrefixStart(lit: string, y: string)
    ensures HasPrefixAt(lit + y, 0, lit)
  {
    assert (lit + y)[0..|lit|] == lit;
  }

  lemma PrefixShift(x: string, y: string, i: nat, lit: string)
    requires HasPrefixAt(y, i, lit)
    ensures HasPrefixAt(x + y, |x| + i, lit)
  {
    assert (x + y)[|x| + i..|x| + i + |lit|] == y[i..i + |lit|];
  }

  lemma RunStart(x: string, y: string, cls: CharClass)
    requires |x| > 0 && AllInClass(x, cls)
    ensures IsRun(x + y, Span(0, |x|), cls)
  {
    assert forall k :: 0 <= k < |x| ==> (x + y)[k] == x[k];
  }

  lemma RunShift(x: string, y: string, sp: Span, cls: CharClass)
    requires IsRun(y, sp, cls)
    ensures IsRun(x + y, Span(|x| + sp.lo, |x| + sp.hi), cls)
  {
    assert forall k :: sp.lo <= k < sp.hi ==> (x + y)[|x| + k] == y[k];
  }

  /** A match at index 0 is the leftmost one, so it gives the captures. */
  lemma FirstMatchAtStart(p: Pattern, s: string, g: seq<Span>)
    requires WellFormed(p) && IsMatch(p, s, 0, g)
    ensures FindStringSubmatch(p, s) == Some(Texts(s, g))
  {
    MatchAtComplete(p, s, 0, g);
  }
}
