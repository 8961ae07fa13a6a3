/** String primitives shared by the frontend and the backend: the whitespace
    class of JavaScript regular expressions and `trim`, character search,
    global removal of a literal (with or without trailing whitespace), joining
    and splitting on a separator, and decimal rendering of line numbers. */
module Text {

  /** The code points JavaScript's `\s` matches and `String.prototype.trim`
      removes (WhiteSpace and LineTerminator). */
  predicate IsSpace(c: char) {
    || c == ' ' || c == '\t' || c == '\n' || c == '\r'
    || c == '\U{B}' || c == '\U{C}' || c == '\U{A0}' || c == '\U{1680}'
    || ('\U{2000}' <= c <= '\U{200A}')
    || c == '\U{2028}' || c == '\U{2029}' || c == '\U{202F}' || c == '\U{205F}'
    || c == '\U{3000}' || c == '\U{FEFF}'
  }

  /** `!s.trim()`: the text is empty once surrounding whitespace is removed. */
  predicate Blank(s: string) {
    forall i :: 0 <= i < |s| ==> IsSpace(s[i])
  }

  /** The greedy `\s*` after a match: drops the longest all-space prefix. */
  function SkipSpace(s: string): (r: string)
    ensures |r| <= |s| && r == s[|s| - |r|..]
    ensures Blank(s[..|s| - |r|])
    ensures r == [] || !IsSpace(r[0])
  {
    if |s| > 0 && IsSpace(s[0]) then
      var r := SkipSpace(s[1..]);
      assert s[1..][..|s[1..]| - |r|] == s[1..|s| - |r|];
      r
    else
      s
  }

  /** Removes, scanning left to right, every non-overlapping occurrence of
      `lit`; when `eatSpace` holds each removed occurrence also takes the
      whitespace that follows it.  With `eatSpace` this is JavaScript's
      `s.replace(/lit\s*\/g, '')`; without it, Python's `s.replace(lit, '')`. */
  function RemoveMatches(s: string, lit: string, eatSpace: bool): (r: string)
    requires |lit| > 0
    ensures |r| <= |s|
    decreases |s|
  {
    if |s| == 0 then []
    else if lit <= s then
      var rest := s[|lit|..];
      RemoveMatches(if eatSpace then SkipSpace(rest) else rest, lit, eatSpace)
    else
      [s[0]] + RemoveMatches(s[1..], lit, eatSpace)
  }

  const Fence: string := "```"

  predicate FenceAt(s: string, i: int) {
    0 <= i && i + 3 <= |s| && s[i] == '`' && s[i + 1] == '`' && s[i + 2] == '`'
  }

  /** The text holds a code-fence marker (three backquotes in a row). */
  ghost predicate HasFence(s: string) {
    exists i :: FenceAt(s, i)
  }

  lemma FenceFreeSlice(s: string, a: nat, b: nat)
    requires a <= b <= |s| && !HasFence(s)
    ensures !HasFence(s[a..b])
  {
    forall i | 0 <= i && i + 3 <= b - a
      ensures !FenceAt(s[a..b], i)
    {
      assert !FenceAt(s, a + i);
    }
  }

  /** When the text does not open with a marker, its removal result does not
      open with one either: a leading backquote is kept and is never followed
      by two more. */
  lemma NoFenceAtFront(s: string, eatSpace: bool)
    requires |s| > 0 && !(Fence <= s)
    ensures !FenceAt(RemoveMatches(s, Fence, eatSpace), 0)
  {
    var tail := RemoveMatches(s[1..], Fence, eatSpace);
    assert RemoveMatches(s, Fence, eatSpace) == [s[0]] + tail;
    if s[0] == '`' && |tail| >= 2 {
      assert |s| >= 3;
      assert s[..3] == [s[0], s[1], s[2]];
      if s[1] == '`' {
        assert s[2] != '`';
        assert s[1..][1] == s[2];
        assert !(Fence <= s[1..]);
        assert tail == [s[1]] + RemoveMatches(s[2..], Fence, eatSpace);
        assert !(Fence <= s[2..]);
        assert s[1..][1..] == s[2..];
        assert RemoveMatches(s[2..], Fence, eatSpace)[0] == s[2];
      } else {
        assert !(Fence <= s[1..]);
        assert tail[0] == s[1];
      }
    }
  }

  /** Removing every fence marker leaves none behind, also where a removal
      brings backquotes on either side of it together: a kept backquote is
      never directly followed by a removed marker, since a marker would then
      have started one position earlier. */
  lemma {:induction false} RemoveFencesLeavesNone(s: string, eatSpace: bool)
    ensures !HasFence(RemoveMatches(s, Fence, eatSpace))
    decreases |s|
  {
    if |s| == 0 {
    } else if Fence <= s {
      var rest := s[3..];
      RemoveFencesLeavesNone(if eatSpace then SkipSpace(rest) else rest, eatSpace);
    } else {
      RemoveFencesLeavesNone(s[1..], eatSpace);
      var tail := RemoveMatches(s[1..], Fence, eatSpace);
      var r := [s[0]] + tail;
      assert r == RemoveMatches(s, Fence, eatSpace);
      NoFenceAtFront(s, eatSpace);
      forall i | 0 < i && i + 3 <= |r|
        ensures !FenceAt(r, i)
      {
        assert !FenceAt(tail, i - 1);
      }
    }
  }

  /** Text without the literal's first character passes through removal
      untouched, also in front of text that is not. */
  lemma {:induction false} RemoveMatchesPlainPrefix(p: string, s: string, lit: string, eatSpace: bool)
    requires |lit| > 0 && lit[0] !in p
    ensures RemoveMatches(p + s, lit, eatSpace) == p + RemoveMatches(s, lit, eatSpace)
  {
    if |p| > 0 {
      assert (p + s)[0] == p[0];
      assert !(lit <= p + s);
      assert (p + s)[1..] == p[1..] + s;
      RemoveMatchesPlainPrefix(p[1..], s, lit, eatSpace);
      assert RemoveMatches(p + s, lit, eatSpace) == [p[0]] + RemoveMatches(p[1..] + s, lit, eatSpace);
      assert p == [p[0]] + p[1..];
    } else {
      assert p + s == s;
    }
  }

  /** One removal step drops the literal and, when `eatSpace`, the
      whitespace after it, so it keeps every other character. */
  lemma SkipLiteralKeepsChar(s: string, lit: string, eatSpace: bool, c: char)
    requires |lit| > 0 && lit <= s && c !in lit && !IsSpace(c)
    ensures c in (if eatSpace then SkipSpace(s[|lit|..]) else s[|lit|..]) <==> c in s
  {
    var rest := s[|lit|..];
    assert s == lit + rest;
    if eatSpace {
      var next := SkipSpace(rest);
      var k := |rest| - |next|;
      assert rest == rest[..k] + next;
      assert Blank(rest[..k]);
      assert c !in rest[..k];
    }
  }

  /** Removal only deletes characters of the literal and, when `eatSpace`,
      whitespace: any other character occurs afterwards iff it did before. */
  lemma {:induction false} RemoveMatchesKeepsChar(s: string, lit: string, eatSpace: bool, c: char)
    requires |lit| > 0 && c !in lit && !IsSpace(c)
    ensures c in RemoveMatches(s, lit, eatSpace) <==> c in s
    decreases |s|
  {
    if |s| == 0 {
    } else if lit <= s {
      var next := if eatSpace then SkipSpace(s[|lit|..]) else s[|lit|..];
      assert RemoveMatches(s, lit, eatSpace) == RemoveMatches(next, lit, eatSpace);
      RemoveMatchesKeepsChar(next, lit, eatSpace, c);
      SkipLiteralKeepsChar(s, lit, eatSpace, c);
    } else {
      var tail := RemoveMatches(s[1..], lit, eatSpace);
      assert RemoveMatches(s, lit, eatSpace) == [s[0]] + tail;
      RemoveMatchesKeepsChar(s[1..], lit, eatSpace, c);
      assert s == [s[0]] + s[1..];
    }
  }

  /** `s.indexOf(c)` / `s.find(c)`: the first position of `c`, or -1. */
  function IndexOf(s: string, c: char): (i: int)
    ensures -1 <= i < |s|
    ensures i == -1 <==> c !in s
    ensures i >= 0 ==> s[i] == c && c !in s[..i]
  {
    if |s| == 0 then -1
    else if s[0] == c then 0
    else
      var k := IndexOf(s[1..], c);
      if k == -1 then -1
      else
        assert s[..k + 1] == [s[0]] + s[1..][..k];
        k + 1
  }

  /** `s.lastIndexOf(c)` / `s.rfind(c)`: the last position of `c`, or -1. */
  function LastIndexOf(s: string, c: char): (i: int)
    ensures -1 <= i < |s|
    ensures i == -1 <==> c !in s
    ensures i >= 0 ==> s[i] == c && c !in s[i + 1..]
  {
    if |s| == 0 then -1
    else
      var k := LastIndexOf(s[1..], c);
      LastIndexOfStep(s, c, k);
      if k >= 0 then k + 1
      else if s[0] == c then 0
      else -1
  }

  /** How the last position in `s` follows from the last one in `s[1..]`. */
  lemma LastIndexOfStep(s: string, c: char, k: int)
    requires |s| > 0 && -1 <= k < |s| - 1
    requires k == -1 <==> c !in s[1..]
    requires k >= 0 ==> s[1..][k] == c && c !in s[1..][k + 1..]
    ensures k >= 0 ==> s[k + 1] == c && c !in s[k + 2..]
    ensures k == -1 && s[0] == c ==> c !in s[1..]
    ensures k == -1 && s[0] != c ==> c !in s
  {
    if k >= 0 {
      assert s[k + 2..] == s[1..][k + 1..];
    } else if s[0] != c {
      assert s == [s[0]] + s[1..];
    }
  }

  /** A position that holds `c` with no earlier `c` is what `IndexOf` finds. */
  lemma IndexOfIs(s: string, c: char, i: nat)
    requires i < |s| && s[i] == c && c !in s[..i]
    ensures IndexOf(s, c) == i
  {
  }

  lemma LastIndexOfIs(s: string, c: char, j: nat)
    requires j < |s| && s[j] == c && c !in s[j + 1..]
    ensures LastIndexOf(s, c) == j
  {
  }

  predicate OccursAt(s: string, t: string, i: int) {
    0 <= i && i + |t| <= |s| && s[i..i + |t|] == t
  }

  /** `s.includes(t)` / `t in s`. */
  predicate Contains(s: string, t: string) {
    exists i | 0 <= i <= |s| - |t| :: OccursAt(s, t, i)
  }

  /** `sep.join(xs)`. */
  function Join(sep: string, xs: seq<string>): string {
    if |xs| == 0 then ""
    else if |xs| == 1 then xs[0]
    else xs[0] + sep + Join(sep, xs[1..])
  }

  /** Every joined piece occurs in the joined text. */
  lemma {:induction false} JoinContains(sep: string, xs: seq<string>, k: nat)
    requires k < |xs|
    ensures Contains(Join(sep, xs), xs[k])
  {
    var t := xs[k];
    if |xs| == 1 || k == 0 {
      assert Join(sep, xs)[..|t|] == t;
      assert OccursAt(Join(sep, xs), t, 0);
    } else {
      assert xs[1..][k - 1] == t;
      JoinContains(sep, xs[1..], k - 1);
      var rest := Join(sep, xs[1..]);
      var i :| 0 <= i <= |rest| - |t| && OccursAt(rest, t, i);
      var pre := xs[0] + sep;
      var s := pre + rest;
      assert Join(sep, xs) == s;
      assert s[|pre| + i..|pre| + i + |t|] == rest[i..i + |t|];
      assert OccursAt(s, t, |pre| + i);
    }
  }

  /** Joining one more piece appends the separator and the piece. */
  lemma {:induction false} JoinSnoc(sep: string, xs: seq<string>, y: string)
    requires |xs| >= 1
    ensures Join(sep, xs + [y]) == Join(sep, xs) + sep + y
  {
    if |xs| == 1 {
      assert (xs + [y])[1..] == [y];
    } else {
      assert (xs + [y])[1..] == xs[1..] + [y];
      JoinSnoc(sep, xs[1..], y);
    }
  }

  /** `s.split(c)`: the pieces between occurrences of `c`. */
  function Split(s: string, c: char): (pieces: seq<string>)
    ensures |pieces| >= 1
  {
    var k := IndexOf(s, c);
    if k == -1 then [s] else [s[..k]] + Split(s[k + 1..], c)
  }

  lemma SplitFirst(a: string, b: string, c: char)
    requires c !in a
    ensures Split(a + [c] + b, c) == [a] + Split(b, c)
  {
    var s := a + [c] + b;
    assert s[..|a|] == a;
    IndexOfIs(s, c, |a|);
    assert s[|a| + 1..] == b;
  }

  /** Splitting a joined listing on its one-character separator gives the
      pieces back, provided no piece contains the separator. */
  lemma {:induction false} SplitJoin(xs: seq<string>, c: char)
    requires |xs| >= 1
    requires forall i :: 0 <= i < |xs| ==> c !in xs[i]
    ensures Split(Join([c], xs), c) == xs
  {
    if |xs| == 1 {
      assert Join([c], xs) == xs[0];
    } else {
      var rest := Join([c], xs[1..]);
      assert Join([c], xs) == xs[0] + [c] + rest;
      SplitFirst(xs[0], rest, c);
      SplitJoin(xs[1..], c);
      assert xs == [xs[0]] + xs[1..];
    }
  }

  function Digit(d: nat): char
    requires d < 10
  {
    ('0' as int + d) as char
  }

  /** `str(n)`: the decimal numeral of `n`, without leading zeros. */
  function Decimal(n: nat): (s: string)
    ensures |s| >= 1
    ensures forall i :: 0 <= i < |s| ==> '0' <= s[i] <= '9'
  {
    if n < 10 then [Digit(n)] else Decimal(n / 10) + [Digit(n % 10)]
  }

  /** Reads a numeral back; the inverse of `Decimal`. */
  function ParseDecimal(s: string): nat
    requires forall i :: 0 <= i < |s| ==> '0' <= s[i] <= '9'
  {
    if |s| == 0 then 0
    else ParseDecimal(s[..|s| - 1]) * 10 + (s[|s| - 1] as int - '0' as int)
  }

  lemma {:induction false} DecimalRoundTrip(n: nat)
    ensures ParseDecimal(Decimal(n)) == n
  {
    if n >= 10 {
      DecimalRoundTrip(n / 10);
      var s := Decimal(n);
      var front := Decimal(n / 10);
      assert s == front + [Digit(n % 10)];
      assert s[..|s| - 1] == front;
      assert s[|s| - 1] as int - '0' as int == n % 10;
      assert ParseDecimal(s) == ParseDecimal(front) * 10 + n % 10;
    }
  }

  /** Different numbers get different numerals, so numbered listings are
      unambiguous. */
  lemma DecimalInjective(m: nat, n: nat)
    requires Decimal(m) == Decimal(n)
    ensures m == n
  {
    DecimalRoundTrip(m);
    DecimalRoundTrip(n);
  }
}
