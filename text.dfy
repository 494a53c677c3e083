/** Decimal rendering of integers as the Arduino `Print`/`String` classes do it,
    its inverse, and splitting text into '\n'-separated lines. */
module Text {

  datatype Option<T> = None | Some(value: T)

  predicate IsDigit(c: char) {
    '0' <= c <= '9'
  }

  predicate AllDigits(s: string) {
    forall i :: 0 <= i < |s| ==> IsDigit(s[i])
  }

  function DigitChar(d: nat): (c: char)
    requires d < 10
    ensures IsDigit(c)
  {
    (d + '0' as int) as char
  }

  function DigitValue(c: char): (d: nat)
    requires IsDigit(c)
    ensures d < 10 && DigitChar(d) == c
  {
    c as int - '0' as int
  }

  /** Decimal digits of `n`, most significant first, no leading zeros. */
  function NatToString(n: nat): (s: string)
    ensures 1 <= |s| && AllDigits(s)
    ensures s[0] == '0' ==> n == 0
    decreases n
  {
    if n < 10 then [DigitChar(n)] else NatToString(n / 10) + [DigitChar(n % 10)]
  }

  /** What `print(int)` and `String += int` produce: a '-' sign, then the digits. */
  function IntToString(i: int): (s: string)
    ensures 1 <= |s|
    ensures forall k :: 0 <= k < |s| ==> IsDigit(s[k]) || s[k] == '-'
  {
    if i < 0 then "-" + NatToString(-i) else NatToString(i)
  }

  /** Value of a string of decimal digits. */
  function DigitsValue(s: string): nat
    requires AllDigits(s)
  {
    if s == [] then 0 else DigitsValue(s[..|s| - 1]) * 10 + DigitValue(s[|s| - 1])
  }

  /** Reads back what IntToString writes; None for anything else. */
  function ParseInt(s: string): Option<int> {
    if 2 <= |s| && s[0] == '-' && AllDigits(s[1..]) then Some(0 - DigitsValue(s[1..]) as int)
    else if 1 <= |s| && AllDigits(s) then Some(DigitsValue(s))
    else None
  }

  lemma {:induction false} NatToStringRoundTrip(n: nat)
    ensures DigitsValue(NatToString(n)) == n
    decreases n
  {
    var s := NatToString(n);
    if n >= 10 {
      NatToStringRoundTrip(n / 10);
      assert s[..|s| - 1] == NatToString(n / 10);
    }
  }

  lemma IntToStringRoundTrip(i: int)
    ensures ParseInt(IntToString(i)) == Some(i)
  {
    if i < 0 {
      NatToStringRoundTrip(-i);
      assert IntToString(i)[1..] == NatToString(-i);
    } else {
      NatToStringRoundTrip(i);
    }
  }

  lemma IntToStringInjective(a: int, b: int)
    requires IntToString(a) == IntToString(b)
    ensures a == b
  {
    IntToStringRoundTrip(a);
    IntToStringRoundTrip(b);
  }

  /** The two halves of a concatenation are recovered by slicing at the seam. */
  lemma AppendSlices(x: string, y: string)
    ensures (x + y)[..|x|] == x && (x + y)[|x|..] == y
  {
  }

  /** Position of the first `c` in `s`, or |s| when there is none. */
  function IndexOf(s: string, c: char): (k: nat)
    ensures k <= |s|
    ensures k < |s| ==> s[k] == c
    ensures forall j :: 0 <= j < k ==> s[j] != c
    ensures k == |s| <==> c !in s
  {
    if s == [] then 0 else if s[0] == c then 0 else 1 + IndexOf(s[1..], c)
  }

  /** The first `c` of `a + rest` is the one that starts `rest` when `a` holds none. */
  lemma IndexOfAfterPrefix(s: string, a: string, rest: string, c: char)
    requires s == a + rest && c !in a && |rest| > 0 && rest[0] == c
    ensures IndexOf(s, c) == |a| && s[..|a|] == a && s[|a|..] == rest
  {
    AppendSlices(a, rest);
    assert s[|a|] == c;
    assert forall j :: 0 <= j < |a| ==> s[j] == a[j];
  }

  /** The '\n'-separated lines of `s` (a final line without '\n' included). */
  function SplitLines(s: string): (ls: seq<string>)
    ensures |ls| >= 1
    ensures forall k :: 0 <= k < |ls| ==> '\n' !in ls[k]
  {
    if s == [] then [""]
    else if s[0] == '\n' then [""] + SplitLines(s[1..])
    else
      var ls := SplitLines(s[1..]);
      [[s[0]] + ls[0]] + ls[1..]
  }

  /** Text without a '\n' is one line. */
  lemma {:induction false} SplitLinesSingle(s: string)
    requires '\n' !in s
    ensures SplitLines(s) == [s]
  {
    if s != [] {
      SplitLinesSingle(s[1..]);
      assert [s[0]] + s[1..] == s;
    }
  }

  /** The lines `ls` written out with a '\n' between two neighbours. */
  function JoinLines(ls: seq<string>): string
    requires |ls| >= 1
  {
    if |ls| == 1 then ls[0] else JoinLines(ls[..|ls| - 1]) + "\n" + ls[|ls| - 1]
  }

  /** SplitLines of a text with one more character in front. */
  lemma SplitLinesCons(c: char, x: string)
    ensures c == '\n' ==> SplitLines([c] + x) == [""] + SplitLines(x)
    ensures c != '\n' ==> SplitLines([c] + x) == [[c] + SplitLines(x)[0]] + SplitLines(x)[1..]
  {
    assert ([c] + x)[0] == c && ([c] + x)[1..] == x;
  }

  /** The step of SplitLinesAppend on the lines alone: putting a character in
      front of the first line commutes with appending more lines. */
  lemma PrependToLines(c: char, ls: seq<string>, lt: seq<string>, lb: seq<string>)
    requires |ls| >= 1 && lt == ls + lb
    ensures [""] + lt == ([""] + ls) + lb
    ensures [[c] + lt[0]] + lt[1..] == ([[c] + ls[0]] + ls[1..]) + lb
  {
    assert lt[1..] == ls[1..] + lb;
  }

  /** A '\n' splits the text into the lines before it and the lines after it. */
  lemma {:induction false} SplitLinesAppend(a: string, b: string)
    ensures SplitLines(a + "\n" + b) == SplitLines(a) + SplitLines(b)
  {
    if a == [] {
      SplitLinesCons('\n', b);
      assert a + "\n" + b == ['\n'] + b;
    } else {
      var c, r := a[0], a[1..];
      var t := r + "\n" + b;
      assert a == [c] + r && a + "\n" + b == [c] + t;
      SplitLinesAppend(r, b);
      SplitLinesCons(c, r);
      SplitLinesCons(c, t);
      PrependToLines(c, SplitLines(r), SplitLines(t), SplitLines(b));
    }
  }

  /** Splitting undoes joining when no line holds a '\n'. */
  lemma {:induction false} SplitJoinLines(ls: seq<string>)
    requires |ls| >= 1
    requires forall k :: 0 <= k < |ls| ==> '\n' !in ls[k]
    ensures SplitLines(JoinLines(ls)) == ls
    decreases |ls|
  {
    var n := |ls| - 1;
    if n == 0 {
      SplitLinesSingle(ls[0]);
    } else {
      SplitJoinLines(ls[..n]);
      SplitLinesAppend(JoinLines(ls[..n]), ls[n]);
      SplitLinesSingle(ls[n]);
      assert ls == ls[..n] + [ls[n]];
    }
  }
}
