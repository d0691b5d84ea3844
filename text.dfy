/**
 * The pieces of Python's string handling the scraper relies on: the `\s`,
 * `\d` and `\w` classes of `re`, `str.strip`, `str.lower`, slicing with
 * clamped bounds, `str.replace` of one character, `float()` on digit text and
 * `strptime`'s "%H:%M".
 */
module Text {
  import opened Wrappers

  /** `str.isspace`, which is also what `\s` matches in a `str` pattern. */
  predicate IsSpace(c: char)
  {
    || c == ' ' || ('\t' <= c <= '\r') || ('\U{1C}' <= c <= '\U{1F}')
    || c == '\U{85}' || c == '\U{A0}' || c == '\U{1680}' || ('\U{2000}' <= c <= '\U{200A}')
    || c == '\U{2028}' || c == '\U{2029}' || c == '\U{202F}' || c == '\U{205F}' || c == '\U{3000}'
  }

  /** `\d`, restricted to the ASCII digits. */
  predicate IsDigit(c: char)
  {
    '0' <= c <= '9'
  }

  /** `\w`: letters, digits and `_`, up to U+00FF. */
  predicate IsWordChar(c: char)
  {
    || ('a' <= c <= 'z') || ('A' <= c <= 'Z') || IsDigit(c) || c == '_'
    || c == '\U{AA}' || c == '\U{B2}' || c == '\U{B3}' || c == '\U{B5}' || c == '\U{B9}' || c == '\U{BA}'
    || ('\U{BC}' <= c <= '\U{BE}') || ('\U{C0}' <= c <= '\U{D6}')
    || ('\U{D8}' <= c <= '\U{F6}') || ('\U{F8}' <= c <= '\U{FF}')
  }

  predicate All(s: string, p: char -> bool)
  {
    forall k :: 0 <= k < |s| ==> p(s[k])
  }

  /** The end of the longest run of characters satisfying `p` that starts at `i`. */
  function SpanEnd(s: string, i: nat, p: char -> bool): (r: nat)
    requires i <= |s|
    ensures i <= r <= |s|
    ensures forall k :: i <= k < r ==> p(s[k])
    ensures r == |s| || !p(s[r])
    decreases |s| - i
  {
    if i < |s| && p(s[i]) then SpanEnd(s, i + 1, p) else i
  }

  /** A run that ends where `p` first fails is the one SpanEnd finds. */
  lemma SpanEndAt(s: string, i: nat, j: nat, p: char -> bool)
    requires i <= j <= |s|
    requires forall k :: i <= k < j ==> p(s[k])
    requires j == |s| || !p(s[j])
    ensures SpanEnd(s, i, p) == j
  {
  }

  /** The longest prefix of `s` whose characters satisfy `p`. */
  function TakeRun(s: string, p: char -> bool): string
  {
    s[..SpanEnd(s, 0, p)]
  }

  /** What follows `TakeRun(s, p)`. */
  function DropRun(s: string, p: char -> bool): string
  {
    s[SpanEnd(s, 0, p)..]
  }

  /** A text splits into its leading run and the rest, which does not start
      with a character of the run. */
  lemma RunSplit(s: string, p: char -> bool)
    ensures s == TakeRun(s, p) + DropRun(s, p)
    ensures All(TakeRun(s, p), p)
    ensures DropRun(s, p) == [] || !p(DropRun(s, p)[0])
  {
    assert s == s[..SpanEnd(s, 0, p)] + s[SpanEnd(s, 0, p)..];
  }

  /** Splitting a run off a text that starts with exactly that run. */
  lemma RunOf(x: string, y: string, p: char -> bool)
    requires All(x, p)
    requires y == [] || !p(y[0])
    ensures TakeRun(x + y, p) == x && DropRun(x + y, p) == y
  {
    var s := x + y;
    assert forall k :: 0 <= k < |x| ==> s[k] == x[k];
    assert |x| < |s| ==> s[|x|] == y[0];
    SpanEndAt(s, 0, |x|, p);
    assert s[..|x|] == x && s[|x|..] == y;
  }

  /** `lstrip()`. */
  function TrimLeft(s: string): (r: string)
    ensures |r| <= |s| && r == s[|s| - |r|..]
    ensures All(s[..|s| - |r|], IsSpace)
    ensures r == [] || !IsSpace(r[0])
  {
    s[SpanEnd(s, 0, IsSpace)..]
  }

  /** `rstrip()`. */
  function TrimRight(s: string): (r: string)
    ensures |r| <= |s| && r == s[..|r|]
    ensures All(s[|r|..], IsSpace)
    ensures r == [] || !IsSpace(r[|r| - 1])
  {
    if |s| > 0 && IsSpace(s[|s| - 1]) then TrimRight(s[..|s| - 1]) else s
  }

  /** `strip()`: both ends, whitespace as `str.isspace` defines it. */
  function Strip(s: string): (r: string)
    ensures |r| <= |s|
    ensures r == [] || (!IsSpace(r[0]) && !IsSpace(r[|r| - 1]))
  {
    TrimRight(TrimLeft(s))
  }

  lemma {:induction false} TrimRightPadded(x: string, b: string)
    requires x == [] || !IsSpace(x[|x| - 1])
    requires All(b, IsSpace)
    ensures TrimRight(x + b) == x
    decreases |b|
  {
    if b == [] {
      assert x + b == x;
    } else {
      var b' := b[..|b| - 1];
      assert (x + b)[..|x + b| - 1] == x + b';
      TrimRightPadded(x, b');
    }
  }

  /** Padding a trimmed text with whitespace on either side strips back to the text. */
  lemma StripPadded(a: string, x: string, b: string)
    requires All(a, IsSpace) && All(b, IsSpace)
    requires x == [] || (!IsSpace(x[0]) && !IsSpace(x[|x| - 1]))
    ensures Strip(a + x + b) == x
  {
    var s := a + x + b;
    if x == [] {
      assert All(s, IsSpace);
      SpanEndAt(s, 0, |s|, IsSpace);
    } else {
      assert s[|a|] == x[0];
      SpanEndAt(s, 0, |a|, IsSpace);
      assert TrimLeft(s) == x + b;
      TrimRightPadded(x, b);
    }
  }

  /** A text strips to nothing exactly when it is all whitespace. */
  lemma StripEmptyIff(s: string)
    ensures Strip(s) == [] <==> All(s, IsSpace)
  {
    var l := TrimLeft(s);
    if All(s, IsSpace) {
      assert s == s + [] + [];
      StripPadded(s, [], []);
    }
    if Strip(s) == [] {
      assert All(l[|TrimRight(l)|..], IsSpace);
      assert l[0..] == l;
      assert s[..|s|] == s;
    }
  }

  lemma StripIdempotent(s: string)
    ensures Strip(Strip(s)) == Strip(s)
  {
    var x := Strip(s);
    assert x == [] + x + [];
    StripPadded([], x, []);
  }

  /** `str.lower()` of one character, for characters up to U+00FF. */
  function LowerChar(c: char): char
  {
    if ('A' <= c <= 'Z') || ('\U{C0}' <= c <= '\U{DE}' && c != '\U{D7}') then (c as int + 32) as char else c
  }

  /** `str.lower()`. */
  function Lower(s: string): (r: string)
    ensures |r| == |s|
    ensures forall k :: 0 <= k < |s| ==> r[k] == LowerChar(s[k])
  {
    if s == [] then [] else [LowerChar(s[0])] + Lower(s[1..])
  }

  /** Lowering twice is lowering once. */
  lemma LowerIdempotent(s: string)
    ensures Lower(Lower(s)) == Lower(s)
  {
    var l := Lower(s);
    assert forall k :: 0 <= k < |l| ==> Lower(l)[k] == l[k];
  }

  lemma LowerCharIsAscii(c: char, lc: char)
    requires 'a' <= lc <= 'z'
    ensures LowerChar(c) == lc <==> c == lc || c as int == lc as int - 32
  {
  }

  /** "libre" in any mix of cases. */
  predicate IsLibreSpelling(s: string)
  {
    && |s| == 5
    && (s[0] == 'L' || s[0] == 'l') && (s[1] == 'I' || s[1] == 'i') && (s[2] == 'B' || s[2] == 'b')
    && (s[3] == 'R' || s[3] == 'r') && (s[4] == 'E' || s[4] == 'e')
  }

  /** The texts that `lower()` maps to "libre" are the case variants of "libre". */
  lemma LowerIsLibreIff(s: string)
    ensures Lower(s) == "libre" <==> IsLibreSpelling(s)
  {
    if |s| == 5 {
      LowerCharIsAscii(s[0], 'l');
      LowerCharIsAscii(s[1], 'i');
      LowerCharIsAscii(s[2], 'b');
      LowerCharIsAscii(s[3], 'r');
      LowerCharIsAscii(s[4], 'e');
      var l := Lower(s);
      assert l == [l[0], l[1], l[2], l[3], l[4]];
    }
  }

  /** `s[:n]`. */
  function TakeUpTo(s: string, n: nat): (r: string)
    ensures r == s[..if n <= |s| then n else |s|]
  {
    if n <= |s| then s[..n] else s
  }

  /** `s[n:]`. */
  function DropUpTo(s: string, n: nat): (r: string)
    ensures n <= |s| ==> r == s[n..]
    ensures |s| <= n ==> r == []
  {
    if n <= |s| then s[n..] else []
  }

  /** `s.replace(a, b)` for one-character `a` and `b`. */
  function ReplaceChar(s: string, a: char, b: char): (r: string)
    ensures |r| == |s|
    ensures forall k :: 0 <= k < |s| ==> r[k] == (if s[k] == a then b else s[k])
  {
    if s == [] then [] else [if s[0] == a then b else s[0]] + ReplaceChar(s[1..], a, b)
  }

  function DigitValue(c: char): nat
    requires IsDigit(c)
  {
    c as int - '0' as int
  }

  /** The number a run of decimal digits denotes. */
  function DigitsValue(s: string): nat
    requires All(s, IsDigit)
  {
    if s == [] then 0 else DigitsValue(s[..|s| - 1]) * 10 + DigitValue(s[|s| - 1])
  }

  function Pow10(n: nat): (r: nat)
    ensures r > 0
  {
    if n == 0 then 1 else 10 * Pow10(n - 1)
  }

  /** Text that `float()` accepts when it holds only digits and dots:
      at most one dot and at least one digit. */
  ghost predicate IsDecimalText(s: string)
  {
    && (forall k :: 0 <= k < |s| ==> IsDigit(s[k]) || s[k] == '.')
    && (forall j, k :: 0 <= j < k < |s| && s[j] == '.' ==> s[k] != '.')
    && (exists k :: 0 <= k < |s| && IsDigit(s[k]))
  }

  predicate NotDot(c: char)
  {
    c != '.'
  }

  /** `float()` on text made of digits and dots, as an exact decimal:
      the digits before the first dot, plus the digits after it scaled down. */
  function ParseDecimal(s: string): (r: Option<real>)
    ensures r.Some? ==> r.value >= 0.0
  {
    var k := SpanEnd(s, 0, NotDot);
    var whole := s[..k];
    var frac := if k < |s| then s[k + 1..] else [];
    if All(whole, IsDigit) && All(frac, IsDigit) && |whole| + |frac| > 0 then
      Some(DecimalValue(whole, frac))
    else None
  }

  /** The number `whole.frac` denotes. */
  function DecimalValue(whole: string, frac: string): (r: real)
    requires All(whole, IsDigit) && All(frac, IsDigit)
    ensures r >= 0.0
  {
    DigitsValue(whole) as real + DigitsValue(frac) as real / Pow10(|frac|) as real
  }

  /** `float()` accepts exactly the digit-and-dot texts with at most one dot
      and at least one digit. */
  lemma ParseDecimalDefined(s: string)
    ensures ParseDecimal(s).Some? <==> IsDecimalText(s)
  {
    if IsDecimalText(s) {
      ParseDecimalComplete(s);
    }
    if ParseDecimal(s).Some? {
      ParseDecimalSound(s);
    }
  }

  lemma ParseDecimalComplete(s: string)
    requires IsDecimalText(s)
    ensures ParseDecimal(s).Some?
  {
    var k := SpanEnd(s, 0, NotDot);
    var whole := s[..k];
    var frac := if k < |s| then s[k + 1..] else [];
    assert All(whole, IsDigit) by {
      forall j | 0 <= j < k ensures IsDigit(whole[j]) {
        assert s[j] == whole[j];
      }
    }
    assert All(frac, IsDigit) by {
      forall j | 0 <= j < |frac| ensures IsDigit(frac[j]) {
        assert s[k] == '.' && s[j + k + 1] == frac[j];
      }
    }
    var j :| 0 <= j < |s| && IsDigit(s[j]);
    if j < k {
      assert |whole| > 0;
    } else {
      assert j > k && |frac| > 0;
    }
  }

  lemma ParseDecimalSound(s: string)
    requires ParseDecimal(s).Some?
    ensures IsDecimalText(s)
  {
    var k := SpanEnd(s, 0, NotDot);
    var whole := s[..k];
    var frac := if k < |s| then s[k + 1..] else [];
    assert forall j :: 0 <= j < k ==> s[j] == whole[j];
    assert forall j :: k < j < |s| ==> s[j] == frac[j - k - 1];
    assert IsDigit(if |whole| > 0 then s[0] else s[k + 1]);
    forall j, l | 0 <= j < l < |s| && s[j] == '.' ensures s[l] != '.' {
      assert j == k;
      assert IsDigit(frac[l - k - 1]);
    }
  }

  /** A digit run parses to the number it denotes. */
  lemma ParseDecimalWhole(s: string)
    requires |s| > 0 && All(s, IsDigit)
    ensures ParseDecimal(s) == Some(DigitsValue(s) as real)
  {
    assert All(s, NotDot);
    SpanEndAt(s, 0, |s|, NotDot);
    var k := SpanEnd(s, 0, NotDot);
    assert k == |s|;
    assert s[..k] == s;
    var frac: string := [];
    assert DigitsValue(frac) == 0 && Pow10(|frac|) == 1;
    assert DecimalValue(s, frac) == DigitsValue(s) as real;
  }

  /** `strptime`'s "%H:%M" on the time text: one or two digits of hour 0..23,
      a colon, one or two digits of minute 0..59, and nothing else.
      The result is the minute of the day. */
  function ParseClock(s: string): (r: Option<int>)
    ensures r.Some? ==> 0 <= r.value < 1440
  {
    var k := SpanEnd(s, 0, IsDigit);
    var hh := s[..k];
    if 1 <= k <= 2 && k < |s| && s[k] == ':' then
      var mm := s[k + 1..];
      if 1 <= |mm| <= 2 && All(mm, IsDigit) && DigitsValue(hh) <= 23 && DigitsValue(mm) <= 59 then
        Some(DigitsValue(hh) * 60 + DigitsValue(mm))
      else None
    else None
  }

  function TwoDigits(n: nat): (r: string)
    requires n < 100
    ensures |r| == 2 && All(r, IsDigit)
  {
    ['0' + (n / 10) as char, '0' + (n % 10) as char]
  }

  lemma TwoDigitsValue(n: nat)
    requires n < 100
    ensures DigitsValue(TwoDigits(n)) == n
  {
    var t := TwoDigits(n);
    assert t[..1] == [t[0]] && t[..1][..0] == [];
    assert DigitsValue(t[..1]) == DigitValue(t[0]);
    assert DigitValue(t[0]) == n / 10 && DigitValue(t[1]) == n % 10;
    assert DigitsValue(t) == DigitsValue(t[..1]) * 10 + DigitValue(t[1]);
  }

  /** A time rendered "HH:MM" parses back to its minute of the day. */
  lemma ParseClockRoundTrip(h: nat, m: nat)
    requires h < 24 && m < 60
    ensures ParseClock(TwoDigits(h) + ":" + TwoDigits(m)) == Some(h * 60 + m)
  {
    var s := TwoDigits(h) + ":" + TwoDigits(m);
    SpanEndAt(s, 0, 2, IsDigit);
    assert s[..2] == TwoDigits(h) && s[3..] == TwoDigits(m);
    TwoDigitsValue(h);
    TwoDigitsValue(m);
  }
}
