/**
 * The string primitives the extractor relies on: Go's `strings.Split` with a
 * one-character separator, `strings.TrimSpace` with `unicode.IsSpace`, and
 * the ASCII character classes that the statistics patterns use.
 * A Go string is modelled as the sequence of its Unicode code points.
 */
module Text {

  /** `unicode.IsSpace`: the Latin-1 spaces, then the Unicode White_Space
      property as of Unicode 6.0 (which still listed U+180E). */
  predicate IsSpace(c: char) {
    || c == '\t' || c == '\n' || c == '\U{000B}' || c == '\U{000C}' || c == '\r' || c == ' '
    || c == '\U{0085}' || c == '\U{00A0}' || c == '\U{1680}' || c == '\U{180E}'
    || ('\U{2000}' <= c <= '\U{200A}')
    || c == '\U{2028}' || c == '\U{2029}' || c == '\U{202F}' || c == '\U{205F}' || c == '\U{3000}'
  }

  predicate AllSpace(t: string) {
    forall k :: 0 <= k < |t| ==> IsSpace(t[k])
  }

  /** Neither the first nor the last character of `t` is a space. */
  predicate NoOuterSpace(t: string) {
    t == [] || (!IsSpace(t[0]) && !IsSpace(t[|t| - 1]))
  }

  /** The number of spaces that open `s`. */
  function LeadingSpace(s: string): (n: nat)
    ensures n <= |s| && AllSpace(s[..n])
    ensures n < |s| ==> !IsSpace(s[n])
  {
    if s != [] && IsSpace(s[0]) then
      var n' := LeadingSpace(s[1..]);
      assert s[..1 + n'] == [s[0]] + s[1..][..n'];
      1 + n'
    else 0
  }

  /** The number of spaces that close `s`. */
  function TrailingSpace(s: string): (n: nat)
    ensures n <= |s| && AllSpace(s[|s| - n..])
    ensures n < |s| ==> !IsSpace(s[|s| - 1 - n])
  {
    if s != [] && IsSpace(s[|s| - 1]) then
      var init := s[..|s| - 1];
      var n' := TrailingSpace(init);
      assert s[|s| - (1 + n')..] == init[|init| - n'..] + [s[|s| - 1]];
      1 + n'
    else 0
  }

  /** `r` is `s` with the spaces around it removed: `r` starts at index `a`
      of `s`, everything outside it is space, and `r` neither starts nor ends
      with a space. */
  ghost predicate IsTrimOf(s: string, r: string, a: nat) {
    && a + |r| <= |s|
    && s[a..a + |r|] == r
    && AllSpace(s[..a])
    && AllSpace(s[a + |r|..])
    && NoOuterSpace(r)
  }

  /** `strings.TrimSpace`. */
  function TrimSpace(s: string): (r: string)
    ensures IsTrimOf(s, r, LeadingSpace(s))
  {
    var a := LeadingSpace(s);
    var t := s[a..];
    var b := TrailingSpace(t);
    assert t[|t| - b..] == s[|s| - b..];
    TrimBetween(s, a, b);
    s[a..|s| - b]
  }

  /** Cutting a run of spaces off each end, up to a non-space, trims. */
  lemma TrimBetween(s: string, a: nat, b: nat)
    requires a + b <= |s| && AllSpace(s[..a]) && AllSpace(s[|s| - b..])
    requires a < |s| ==> !IsSpace(s[a])
    requires a + b < |s| ==> !IsSpace(s[|s| - 1 - b])
    ensures IsTrimOf(s, s[a..|s| - b], a)
  {
    var r := s[a..|s| - b];
    assert s[a + |r|..] == s[|s| - b..];
  }

  /** The trimmed text is unique: whatever split of `s` into space, a text
      without outer space, and space, that text is what TrimSpace returns. */
  lemma TrimSpaceUnique(s: string, r: string, a: nat)
    requires IsTrimOf(s, r, a)
    ensures TrimSpace(s) == r
  {
    var a' := LeadingSpace(s);
    var r' := TrimSpace(s);
    SpacesBefore(s, a);
    SpacesAfter(s, a + |r|);
    SpacesBefore(s, a');
    SpacesAfter(s, a' + |r'|);
    if r == [] {
      assert |r'| == 0;
    } else {
      assert s[a..a + |r|][0] == s[a];
      assert s[a..a + |r|][|r| - 1] == s[a + |r| - 1];
      assert a' == a;
      if r' != [] {
        assert s[a..a + |r'|][|r'| - 1] == s[a + |r'| - 1];
      }
      assert |r'| == |r|;
    }
  }

  lemma SpacesBefore(s: string, a: nat)
    requires a <= |s| && AllSpace(s[..a])
    ensures forall k :: 0 <= k < a ==> IsSpace(s[k])
  {
    forall k | 0 <= k < a ensures IsSpace(s[k]) {
      assert s[..a][k] == s[k];
    }
  }

  lemma SpacesAfter(s: string, b: nat)
    requires b <= |s| && AllSpace(s[b..])
    ensures forall k :: b <= k < |s| ==> IsSpace(s[k])
  {
    forall k | b <= k < |s| ensures IsSpace(s[k]) {
      assert s[b..][k - b] == s[k];
    }
  }

  /** A text without outer space is its own trim. */
  lemma TrimSpaceKeeps(s: string)
    requires NoOuterSpace(s)
    ensures TrimSpace(s) == s
  {
    assert IsTrimOf(s, s, 0) by {
      assert s[..0] == [] && s[|s|..] == [] && s[0..|s|] == s;
    }
    TrimSpaceUnique(s, s, 0);
  }

  /** Spaces added around a text do not change what TrimSpace returns. */
  lemma TrimSpacePadded(lead: string, t: string, trail: string)
    requires AllSpace(lead) && AllSpace(trail)
    ensures TrimSpace(lead + t + trail) == TrimSpace(t)
  {
    var r := TrimSpace(t);
    var a := LeadingSpace(t);
    PaddedTrimOf(lead, t, trail, r, a);
    TrimSpaceUnique(lead + t + trail, r, |lead| + a);
  }

  lemma PaddedTrimOf(lead: string, t: string, trail: string, r: string, a: nat)
    requires AllSpace(lead) && AllSpace(trail) && IsTrimOf(t, r, a)
    ensures IsTrimOf(lead + t + trail, r, |lead| + a)
  {
    PaddedMiddle(lead, t, trail, a, a + |r|);
    PaddedBefore(lead, t, trail, a);
    PaddedAfter(lead, t, trail, a + |r|);
  }

  lemma PaddedMiddle(lead: string, t: string, trail: string, i: nat, j: nat)
    requires i <= j <= |t|
    ensures (lead + t + trail)[|lead| + i..|lead| + j] == t[i..j]
  {
    var s := lead + t + trail;
    assert forall k :: 0 <= k < |t| ==> s[|lead| + k] == t[k];
  }

  lemma PaddedBefore(lead: string, t: string, trail: string, i: nat)
    requires i <= |t| && AllSpace(lead) && AllSpace(t[..i])
    ensures AllSpace((lead + t + trail)[..|lead| + i])
  {
    assert (lead + t + trail)[..|lead| + i] == lead + t[..i];
    AllSpaceAppend(lead, t[..i]);
  }

  lemma PaddedAfter(lead: string, t: string, trail: string, i: nat)
    requires i <= |t| && AllSpace(t[i..]) && AllSpace(trail)
    ensures AllSpace((lead + t + trail)[|lead| + i..])
  {
    assert (lead + t + trail)[|lead| + i..] == t[i..] + trail;
    AllSpaceAppend(t[i..], trail);
  }

  lemma AllSpaceAppend(x: string, y: string)
    requires AllSpace(x) && AllSpace(y)
    ensures AllSpace(x + y)
  {
    forall k | 0 <= k < |x + y| ensures IsSpace((x + y)[k]) {
      if k >= |x| { assert (x + y)[k] == y[k - |x|]; }
    }
  }

  /** Index of the first `c` in `s`, or `|s|` when there is none. */
  function IndexOf(s: string, c: char): (i: nat)
    ensures i <= |s| && c !in s[..i]
    ensures i < |s| ==> s[i] == c
  {
    if s == [] then 0
    else if s[0] == c then 0
    else
      var i' := IndexOf(s[1..], c);
      assert s[..1 + i'] == [s[0]] + s[1..][..i'];
      1 + i'
  }

  /** IndexOf finds the first occurrence. */
  lemma IndexOfAt(s: string, c: char, i: nat)
    requires i < |s| && s[i] == c && c !in s[..i]
    ensures IndexOf(s, c) == i
  {
    var j := IndexOf(s, c);
    assert forall k :: 0 <= k < i ==> s[k] != c by {
      forall k | 0 <= k < i ensures s[k] != c { assert s[..i][k] == s[k]; }
    }
    assert forall k :: 0 <= k < j ==> s[k] != c by {
      forall k | 0 <= k < j ensures s[k] != c { assert s[..j][k] == s[k]; }
    }
  }

  /** The pieces joined back with the separator between each two. */
  function Join(parts: seq<string>, sep: char): string
    requires |parts| > 0
  {
    if |parts| == 1 then parts[0] else parts[0] + [sep] + Join(parts[1..], sep)
  }

  /** `strings.Split(s, sep)` for a one-character separator: the pieces
      between the separators, so n separators give n + 1 pieces and the
      empty text gives one empty piece. */
  function Split(s: string, sep: char): (parts: seq<string>)
    ensures |parts| > 0
    ensures forall k :: 0 <= k < |parts| ==> sep !in parts[k]
    ensures Join(parts, sep) == s
    decreases |s|
  {
    var i := IndexOf(s, sep);
    if i == |s| then
      assert s[..i] == s;
      [s]
    else
      var rest := Split(s[i + 1..], sep);
      assert s == s[..i] + [sep] + s[i + 1..];
      [s[..i]] + rest
  }

  /** Splitting undoes joining pieces that hold no separator. */
  lemma {:induction false} SplitJoin(parts: seq<string>, sep: char)
    requires |parts| > 0
    requires forall k :: 0 <= k < |parts| ==> sep !in parts[k]
    ensures Split(Join(parts, sep), sep) == parts
    decreases |parts|
  {
    var s := Join(parts, sep);
    var p := parts[0];
    if |parts| == 1 {
      assert sep !in p;
      assert IndexOf(s, sep) == |s|;
    } else {
      var tail := Join(parts[1..], sep);
      assert s == p + [sep] + tail;
      assert s[..|p|] == p;
      IndexOfAt(s, sep, |p|);
      assert s[|p| + 1..] == tail;
      assert s[..|p|] == p;
      SplitJoin(parts[1..], sep);
    }
  }

  /** The character classes the statistics patterns use: `[0-9]`, `[0-9.]` and `[^N]`. */
  datatype CharClass = Digit | DigitOrDot | NotN

  predicate IsDigit(c: char) {
    '0' <= c <= '9'
  }

  predicate InClass(c: char, cls: CharClass) {
    match cls
    case Digit => IsDigit(c)
    case DigitOrDot => IsDigit(c) || c == '.'
    case NotN => c != 'N'
  }

  predicate AllInClass(t: string, cls: CharClass) {
    forall k :: 0 <= k < |t| ==> InClass(t[k], cls)
  }
}
