/** The few JavaScript string operations the path decomposer relies on:
    `indexOf`, `slice` with negative positions, `parseInt(_, 10)` on a digit
    run and `String(n)` for a non-negative integer. */
module JsString {

  /** `s.indexOf(c)`: the first position of `c` in `s`, or -1. */
  function IndexOf(s: string, c: char): (r: int)
    ensures -1 <= r < |s|
    ensures r == -1 <==> c !in s
  {
    if |s| == 0 then -1
    else if s[0] == c then 0
    else
      var i := IndexOf(s[1..], c);
      if i == -1 then -1 else i + 1
  }

  /** `indexOf` finds the first occurrence. */
  lemma {:induction false} IndexOfFirst(s: string, c: char)
    ensures var r := IndexOf(s, c);
            0 <= r ==> s[r] == c && c !in s[..r]
  {
    if |s| > 0 && s[0] != c {
      IndexOfFirst(s[1..], c);
      var i := IndexOf(s[1..], c);
      if i >= 0 {
        assert s[..i + 1] == [s[0]] + s[1..][..i];
      }
    }
  }

  /** How `slice` turns a position into an offset: a negative position counts
      from the end, and both are clamped to `[0, len]`. */
  function Clamp(i: int, len: nat): (r: nat)
    ensures r <= len
  {
    if i < 0 then (if len + i < 0 then 0 else len + i)
    else if i > len then len
    else i
  }

  /** `s.slice(start, end)`. */
  function Slice(s: string, start: int, end: int): (r: string)
    ensures |r| <= |s|
  {
    var from, to := Clamp(start, |s|), Clamp(end, |s|);
    if from < to then s[from..to] else ""
  }

  /** Positions inside the string cut it there, and an empty or reversed
      range is empty. `slice(0, -1)`, which `_genSteps` evaluates for a key
      without `[`, drops the last character. */
  lemma SliceClamps(s: string, start: int, end: int)
    ensures 0 <= start <= end <= |s| ==> Slice(s, start, end) == s[start..end]
    ensures 0 <= end <= start ==> Slice(s, start, end) == ""
    ensures |s| >= 1 && start == 0 && end == -1 ==> Slice(s, start, end) == s[..|s| - 1]
  {
  }

  predicate IsDigit(c: char) {
    '0' <= c <= '9'
  }

  predicate AllDigits(s: string) {
    forall i :: 0 <= i < |s| ==> IsDigit(s[i])
  }

  /** The length of the longest run of decimal digits at the start of `s`. */
  function DigitRun(s: string): (n: nat)
    ensures n <= |s|
  {
    if |s| == 0 || !IsDigit(s[0]) then 0
    else DigitRun(s[1..]) + 1
  }

  /** The run is all digits and cannot be extended. */
  lemma {:induction false} DigitRunMaximal(s: string)
    ensures var n := DigitRun(s);
            AllDigits(s[..n]) && (n < |s| ==> !IsDigit(s[n]))
  {
    if |s| > 0 && IsDigit(s[0]) {
      DigitRunMaximal(s[1..]);
      var n := DigitRun(s[1..]);
      assert s[..n + 1] == [s[0]] + s[1..][..n];
    }
  }

  /** `parseInt(s, 10)` for a non-empty digit string: its decimal value,
      leading zeros allowed. */
  function DigitsValue(s: string): nat
    requires AllDigits(s)
  {
    if s == [] then 0
    else 10 * DigitsValue(s[..|s| - 1]) + (s[|s| - 1] as int - '0' as int)
  }

  /** `parseInt` ignores a leading zero: `[007]` and `[7]` name the same
      index. */
  lemma {:induction false} DigitsValueLeadingZero(s: string)
    requires AllDigits(s) && |s| >= 1 && s[0] == '0'
    ensures DigitsValue(s) == DigitsValue(s[1..])
    decreases |s|
  {
    if |s| >= 2 {
      var init := s[..|s| - 1];
      assert init[1..] == s[1..][..|s| - 2];
      DigitsValueLeadingZero(init);
    }
  }

  function Digit(d: nat): (c: char)
    requires d < 10
    ensures IsDigit(c) && c as int - '0' as int == d
  {
    (d + '0' as int) as char
  }

  /** `String(n)`: the decimal form of `n`, with no leading zero. Reading it
      back with `parseInt` gives `n` again. */
  function Decimal(n: nat): (r: string)
    ensures |r| >= 1 && AllDigits(r)
    ensures r[0] == '0' ==> r == "0"
    ensures DigitsValue(r) == n
  {
    if n < 10 then [Digit(n)]
    else
      var r := Decimal(n / 10) + [Digit(n % 10)];
      assert r[..|r| - 1] == Decimal(n / 10);
      r
  }

  /** `indexOf` skips a prefix that does not contain the character. */
  lemma {:induction false} IndexOfAfter(a: string, s: string, c: char)
    requires c !in a && |s| > 0 && s[0] == c
    ensures IndexOf(a + s, c) == |a|
  {
    if a != [] {
      assert (a + s)[1..] == a[1..] + s;
      IndexOfAfter(a[1..], s, c);
    }
  }

  /** A digit run stops where the digits stop. */
  lemma {:induction false} DigitRunOfDigits(d: string, s: string)
    requires AllDigits(d) && (s == [] || !IsDigit(s[0]))
    ensures DigitRun(d + s) == |d|
  {
    if d != [] {
      assert (d + s)[1..] == d[1..] + s;
      DigitRunOfDigits(d[1..], s);
    }
  }

  /** A digit run stops inside a prefix that is not all digits. */
  lemma {:induction false} DigitRunInside(a: string, s: string)
    requires !AllDigits(a)
    ensures DigitRun(a + s) < |a|
  {
    if IsDigit(a[0]) {
      assert (a + s)[1..] == a[1..] + s;
      DigitRunInside(a[1..], s);
    }
  }
}
