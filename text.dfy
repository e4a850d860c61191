/** The Python string operations the resolution code relies on: str.isspace,
    str.strip, str.split() and str.split(sep), str(int), str.lower, and the
    newline-terminated lines that prompts and GFF3 output are built from. */
module Text {

  /** The characters str.isspace() accepts: the Unicode whitespace characters as
      Python defines them. */
  const Whitespace: set<char> := {
    ' ', '\t', '\n', '\U{0B}', '\U{0C}', '\r', '\U{1C}', '\U{1D}', '\U{1E}', '\U{1F}',
    '\U{85}', '\U{A0}', '\U{1680}',
    '\U{2000}', '\U{2001}', '\U{2002}', '\U{2003}', '\U{2004}', '\U{2005}',
    '\U{2006}', '\U{2007}', '\U{2008}', '\U{2009}', '\U{200A}',
    '\U{2028}', '\U{2029}', '\U{202F}', '\U{205F}', '\U{3000}'}

  /** str.isspace() of one character. */
  predicate IsSpace(c: char) {
    c in Whitespace
  }

  predicate AllSpace(s: string) {
    forall i :: 0 <= i < |s| ==> IsSpace(s[i])
  }

  predicate NoSpace(s: string) {
    forall i :: 0 <= i < |s| ==> !IsSpace(s[i])
  }

  /** The number of whitespace characters s starts with. */
  function LeadingSpace(s: string): (n: nat)
    ensures n <= |s|
    ensures n < |s| ==> !IsSpace(s[n])
  {
    if s != [] && IsSpace(s[0]) then 1 + LeadingSpace(s[1..]) else 0
  }

  /** The length of the longest whitespace-free prefix of s. */
  function WordLength(s: string): (n: nat)
    ensures n <= |s|
    ensures n < |s| ==> IsSpace(s[n])
    ensures s != [] && !IsSpace(s[0]) ==> n > 0
  {
    if s != [] && !IsSpace(s[0]) then 1 + WordLength(s[1..]) else 0
  }

  /** Where the whitespace that s ends with begins. */
  function TrailingStart(s: string): (n: nat)
    ensures n <= |s|
    ensures n > 0 ==> !IsSpace(s[n - 1])
  {
    if s != [] && IsSpace(s[|s| - 1]) then TrailingStart(s[..|s| - 1]) else |s|
  }

  lemma {:induction false} LeadingSpaceAll(s: string)
    ensures forall i :: 0 <= i < LeadingSpace(s) ==> IsSpace(s[i])
    decreases |s|
  {
    if s != [] && IsSpace(s[0]) {
      LeadingSpaceAll(s[1..]);
      assert forall i :: 1 <= i < |s| ==> s[i] == s[1..][i - 1];
    }
  }

  lemma {:induction false} WordLengthAll(s: string)
    ensures forall i :: 0 <= i < WordLength(s) ==> !IsSpace(s[i])
    decreases |s|
  {
    if s != [] && !IsSpace(s[0]) {
      WordLengthAll(s[1..]);
      assert forall i :: 1 <= i < |s| ==> s[i] == s[1..][i - 1];
    }
  }

  lemma {:induction false} TrailingStartAll(s: string)
    ensures forall i :: TrailingStart(s) <= i < |s| ==> IsSpace(s[i])
    decreases |s|
  {
    if s != [] && IsSpace(s[|s| - 1]) {
      TrailingStartAll(s[..|s| - 1]);
    }
  }

  /** The properties of LeadingSpace pin it down. */
  lemma {:induction false} LeadingSpaceIs(s: string, n: nat)
    requires n <= |s|
    requires forall i :: 0 <= i < n ==> IsSpace(s[i])
    requires n == |s| || !IsSpace(s[n])
    ensures LeadingSpace(s) == n
  {
    LeadingSpaceAll(s);
    var m := LeadingSpace(s);
    if m < |s| {
      assert !IsSpace(s[m]);
    }
    if n < |s| {
      assert !IsSpace(s[n]);
    }
  }

  /** The properties of WordLength pin it down. */
  lemma {:induction false} WordLengthIs(s: string, n: nat)
    requires n <= |s|
    requires forall i :: 0 <= i < n ==> !IsSpace(s[i])
    requires n == |s| || IsSpace(s[n])
    ensures WordLength(s) == n
  {
    WordLengthAll(s);
    var m := WordLength(s);
    if m < |s| {
      assert IsSpace(s[m]);
    }
    if n < |s| {
      assert IsSpace(s[n]);
    }
  }

  /** str.lstrip() */
  function TrimLeft(s: string): string {
    s[LeadingSpace(s)..]
  }

  /** str.rstrip() */
  function TrimRight(s: string): string {
    s[..TrailingStart(s)]
  }

  /** str.strip(): s without the whitespace at either end. */
  function Strip(s: string): (r: string)
    ensures r == [] || (!IsSpace(r[0]) && !IsSpace(r[|r| - 1]))
  {
    var t := TrimLeft(s);
    assert t != [] ==> !IsSpace(t[0]);
    TrimRight(t)
  }

  /** str.split() with no separator: the maximal runs of non-whitespace, in order. */
  function Words(s: string): seq<string>
    decreases |s|
  {
    var k := LeadingSpace(s);
    if k == |s| then []
    else
      var n := WordLength(s[k..]);
      assert n > 0 by {
        assert s[k..][0] == s[k];
      }
      [s[k..k + n]] + Words(s[k + n..])
  }

  // ---------------------------------------------------------------------------
  // Properties of strip and split

  /** str.strip() gives "" exactly when the string is all whitespace. */
  lemma {:induction false} StripEmptyIffBlank(s: string)
    ensures Strip(s) == [] <==> AllSpace(s)
  {
    var k := LeadingSpace(s);
    LeadingSpaceAll(s);
    if k < |s| {
      var t := TrimLeft(s);
      assert t[0] == s[k];
      TrailingStartAll(t);
      assert TrailingStart(t) > 0;
    } else {
      assert forall i :: 0 <= i < |s| ==> IsSpace(s[i]);
    }
  }

  /** One step of str.split(): the first word, then the words of the rest. */
  lemma {:induction false} WordsStep(s: string)
    requires LeadingSpace(s) < |s|
    ensures var k := LeadingSpace(s); var n := WordLength(s[k..]);
      Words(s) == [s[k..k + n]] + Words(s[k + n..])
  {
  }

  /** The words of a string that starts with non-whitespace begin with its longest
      whitespace-free prefix. */
  lemma {:induction false} FirstWordAtStart(x: string)
    requires x != [] && !IsSpace(x[0])
    ensures Words(x) != [] && Words(x)[0] == x[..WordLength(x)]
  {
    LeadingSpaceIs(x, 0);
    assert x[0..] == x;
    WordsStep(x);
  }

  /** s.strip().split() is empty exactly when s is all whitespace. */
  lemma {:induction false} NoWordIffBlank(s: string)
    ensures Words(Strip(s)) == [] <==> AllSpace(s)
  {
    StripEmptyIffBlank(s);
    var x := Strip(s);
    if x != [] {
      FirstWordAtStart(x);
    }
  }

  /** Where str.strip() cuts: after the leading whitespace, and before whitespace
      that runs to the end. */
  lemma {:induction false} StripPlace(s: string)
    ensures var k := LeadingSpace(s); var x := Strip(s);
      && k + |x| <= |s| && x == s[k..k + |x|]
      && AllSpace(s[..k]) && AllSpace(s[k + |x|..])
  {
    var k := LeadingSpace(s);
    LeadingSpaceAll(s);
    var t := s[k..];
    TrailingStartAll(t);
    var x := Strip(s);
    assert x == t[..TrailingStart(t)];
    forall i | k + |x| <= i < |s| ensures IsSpace(s[i]) {
      assert s[i] == t[i - k];
    }
  }

  /** s.strip().split()[0] is the first maximal run of non-whitespace in s, which
      follows the leading whitespace and ends at whitespace or at the end of s. */
  lemma {:induction false} FirstWordOfStrip(s: string)
    requires !AllSpace(s)
    ensures Words(Strip(s)) != []
    ensures var w := Words(Strip(s))[0]; var k := LeadingSpace(s);
      && w != [] && NoSpace(w) && AllSpace(s[..k])
      && k + |w| <= |s| && s[k..k + |w|] == w
      && (k + |w| == |s| || IsSpace(s[k + |w|]))
  {
    StripEmptyIffBlank(s);
    StripPlace(s);
    var k := LeadingSpace(s);
    var x := Strip(s);
    FirstWordAtStart(x);
    var n := WordLength(x);
    WordLengthAll(x);
    assert s[k..k + n] == x[..n];
    if n < |x| {
      assert x[n] == s[k + n];
    } else if k + n < |s| {
      assert s[k + n] == s[k + |x|..][0];
    }
  }

  // ---------------------------------------------------------------------------
  // str.split(sep) with a one-character separator, and its inverse sep.join

  /** str.split(d): the pieces between occurrences of d, in order. */
  function SplitOn(s: string, d: char): (parts: seq<string>)
    ensures |parts| >= 1
    ensures |parts| == 1 <==> d !in s
    ensures forall i :: 0 <= i < |parts| ==> d !in parts[i]
    decreases |s|
  {
    if s == [] then [""]
    else
      var rest := SplitOn(s[1..], d);
      if s[0] == d then [""] + rest
      else [[s[0]] + rest[0]] + rest[1..]
  }

  /** d.join(parts) */
  function Join(parts: seq<string>, d: char): string
    requires |parts| >= 1
  {
    if |parts| == 1 then parts[0] else parts[0] + [d] + Join(parts[1..], d)
  }

  /** A character that is neither the separator nor in any part is not in the join. */
  lemma {:induction false} JoinAvoids(parts: seq<string>, d: char, c: char)
    requires |parts| >= 1 && c != d
    requires forall i :: 0 <= i < |parts| ==> c !in parts[i]
    ensures c !in Join(parts, d)
    decreases |parts|
  {
    if |parts| > 1 {
      JoinAvoids(parts[1..], d, c);
    }
  }

  /** Splitting and joining again gives back the string. */
  lemma {:induction false} JoinSplit(s: string, d: char)
    ensures Join(SplitOn(s, d), d) == s
    decreases |s|
  {
    if s != [] {
      var rest := SplitOn(s[1..], d);
      JoinSplit(s[1..], d);
      if s[0] == d {
        assert s == [d] + s[1..];
      } else if |rest| == 1 {
        assert s == [s[0]] + s[1..];
      } else {
        assert Join(rest, d) == rest[0] + [d] + Join(rest[1..], d);
        var parts := [[s[0]] + rest[0]] + rest[1..];
        assert parts[1..] == rest[1..];
        assert s == [s[0]] + s[1..];
      }
    }
  }

  lemma {:induction false} SplitAfterPiece(a: string, b: string, d: char)
    requires d !in a
    ensures SplitOn(a + [d] + b, d) == [a] + SplitOn(b, d)
    decreases |a|
  {
    if a == [] {
      assert a + [d] + b == [d] + b;
      assert ([d] + b)[1..] == b;
    } else {
      assert (a + [d] + b)[1..] == a[1..] + [d] + b;
      SplitAfterPiece(a[1..], b, d);
      assert [a[0]] + a[1..] == a;
    }
  }

  /** Joining pieces that do not contain the separator and splitting again gives
      back the pieces. */
  lemma {:induction false} SplitJoin(parts: seq<string>, d: char)
    requires |parts| >= 1
    requires forall i :: 0 <= i < |parts| ==> d !in parts[i]
    ensures SplitOn(Join(parts, d), d) == parts
    decreases |parts|
  {
    if |parts| == 1 {
      assert SplitOn(parts[0], d) == [parts[0]] by {
        var ps := SplitOn(parts[0], d);
        JoinSplit(parts[0], d);
      }
    } else {
      SplitJoin(parts[1..], d);
      SplitAfterPiece(parts[0], Join(parts[1..], d), d);
      assert [parts[0]] + parts[1..] == parts;
    }
  }

  /** When d occurs in s, the second piece of s.split(d) is exactly the text between
      the first occurrence of d and the next one (or the end of s). */
  lemma {:induction false} SecondPiece(s: string, d: char)
    requires d in s
    ensures var ps := SplitOn(s, d); var n := |ps[0]| + 1 + |ps[1]|;
      && n <= |s|
      && s[..n] == ps[0] + [d] + ps[1]
      && (n == |s| || s[n] == d)
  {
    var ps := SplitOn(s, d);
    JoinSplit(s, d);
    assert Join(ps, d) == ps[0] + [d] + Join(ps[1..], d);
    if |ps| > 2 {
      assert Join(ps[1..], d) == ps[1] + [d] + Join(ps[2..], d);
    }
  }

  // ---------------------------------------------------------------------------
  // str(int)

  function DigitChar(d: nat): (c: char)
    requires d < 10
    ensures '0' <= c <= '9'
  {
    "0123456789"[d]
  }

  /** str(n) for a non-negative integer: its decimal digits, without leading zeros. */
  function Decimal(n: nat): (s: string)
    ensures 1 <= |s| && (n >= 10 <==> |s| >= 2)
    ensures forall i :: 0 <= i < |s| ==> '0' <= s[i] <= '9'
    decreases n
  {
    if n < 10 then [DigitChar(n)] else Decimal(n / 10) + [DigitChar(n % 10)]
  }

  /** Different numbers are printed differently. */
  lemma {:induction false} DecimalInjective(a: nat, b: nat)
    requires Decimal(a) == Decimal(b)
    ensures a == b
    decreases a
  {
    if a >= 10 && b >= 10 {
      var da, db := Decimal(a), Decimal(b);
      assert da[|da| - 1] == DigitChar(a % 10) && db[|db| - 1] == DigitChar(b % 10);
      assert a % 10 == b % 10;
      assert da[..|da| - 1] == Decimal(a / 10) && db[..|db| - 1] == Decimal(b / 10);
      DecimalInjective(a / 10, b / 10);
    }
  }

  /** str(i) for any integer: a minus sign before the digits of a negative number. */
  function IntStr(i: int): string {
    if i < 0 then "-" + Decimal(-i) else Decimal(i)
  }

  // ---------------------------------------------------------------------------
  // str.lower()

  function LowerChar(c: char): char {
    if 'A' <= c <= 'Z' then (c as int + 32) as char else c
  }

  /** str.lower() on ASCII letters. */
  function Lower(s: string): (r: string)
    ensures |r| == |s|
    ensures forall i :: 0 <= i < |s| ==> !('A' <= r[i] <= 'Z')
    ensures forall i :: 0 <= i < |s| && 'A' <= s[i] <= 'Z' ==> r[i] as int == s[i] as int + 32
    ensures forall i :: 0 <= i < |s| && !('A' <= s[i] <= 'Z') ==> r[i] == s[i]
  {
    seq(|s|, i requires 0 <= i < |s| => LowerChar(s[i]))
  }

  // ---------------------------------------------------------------------------
  // Text built line by line with `text += line + "\n"`

  /** Every element followed by a newline, in order. */
  function Lines(ls: seq<string>): string {
    if ls == [] then "" else Lines(ls[..|ls| - 1]) + ls[|ls| - 1] + "\n"
  }

  lemma {:induction false} LinesAppend(ls: seq<string>, l: string)
    ensures Lines(ls + [l]) == Lines(ls) + l + "\n"
  {
    assert (ls + [l])[..|ls|] == ls;
  }

  /** One more line of xs, after the fixed lines ls. */
  lemma LinesExtend(ls: seq<string>, xs: seq<string>, i: nat)
    requires i < |xs|
    ensures Lines(ls + xs[..i + 1]) == Lines(ls + xs[..i]) + xs[i] + "\n"
  {
    assert ls + xs[..i + 1] == ls + xs[..i] + [xs[i]];
    LinesAppend(ls + xs[..i], xs[i]);
  }

  lemma {:induction false} LinesThenJoin(ls: seq<string>, last: string)
    ensures Lines(ls) + last == Join(ls + [last], '\n')
    decreases |ls|
  {
    if ls != [] {
      var init, l := ls[..|ls| - 1], ls[|ls| - 1];
      assert Lines(ls) + last == Lines(init) + (l + "\n" + last);
      LinesThenJoin(init, l + "\n" + last);
      JoinLastSplit(init, l, last);
      assert init + [l, last] == ls + [last];
    }
  }

  lemma {:induction false} JoinLastSplit(init: seq<string>, l: string, last: string)
    ensures Join(init + [l + "\n" + last], '\n') == Join(init + [l, last], '\n')
    decreases |init|
  {
    if init == [] {
      assert [l + "\n" + last] == [l + "\n" + last];
      assert [l, last][1..] == [last];
    } else {
      assert (init + [l + "\n" + last])[1..] == init[1..] + [l + "\n" + last];
      assert (init + [l, last])[1..] == init[1..] + [l, last];
      JoinLastSplit(init[1..], l, last);
    }
  }

  /** Lines that contain no newline are read back by splitting on newlines; the
      piece after the last newline is what followed the lines. */
  lemma {:induction false} LinesRoundTrip(ls: seq<string>, last: string)
    requires forall i :: 0 <= i < |ls| ==> '\n' !in ls[i]
    requires '\n' !in last
    ensures SplitOn(Lines(ls) + last, '\n') == ls + [last]
  {
    LinesThenJoin(ls, last);
    SplitJoin(ls + [last], '\n');
  }
}
