/** Strings as the JavaScript code sees them: the `\s` character class,
    `split` and `join` on a one-character separator, the decimal rendering of
    integers (`String(n)`, `"" + n`) and `Number(...)` on such renderings. */
module Text {

  /** The characters JavaScript's `\s` class matches. */
  predicate IsSpace(c: char) {
    || c == ' ' || c == '\t' || c == '\n' || c == '\r' || c == '\U{B}' || c == '\U{C}'
    || c == '\U{A0}' || c == '\U{1680}' || ('\U{2000}' <= c <= '\U{200A}')
    || c == '\U{2028}' || c == '\U{2029}' || c == '\U{202F}' || c == '\U{205F}'
    || c == '\U{3000}' || c == '\U{FEFF}'
  }

  /** `/^\s+$/.test(s)`: at least one character, and every one of them white space.
      The empty string does not match. */
  predicate AllWhitespace(s: string) {
    |s| > 0 && forall i :: 0 <= i < |s| ==> IsSpace(s[i])
  }

  /** Number of occurrences of `c` in `s`. */
  function Occurrences(s: string, c: char): (n: nat)
    ensures n == 0 <==> c !in s
    ensures n <= |s|
  {
    if |s| == 0 then 0
    else (if s[0] == c then 1 else 0) + Occurrences(s[1..], c)
  }

  /** `s.split(sep)` for a one-character separator: the text between
      consecutive separators, so there is one piece more than there are
      separators, and `"".split(sep)` is `[""]`. */
  function Split(s: string, sep: char): (r: seq<string>)
    ensures |r| == Occurrences(s, sep) + 1
    ensures forall i :: 0 <= i < |r| ==> sep !in r[i]
  {
    if |s| == 0 then [""]
    else
      var rest := Split(s[1..], sep);
      if s[0] == sep then [""] + rest
      else [[s[0]] + rest[0]] + rest[1..]
  }

  /** `xs.join(sep)`. */
  function Join(xs: seq<string>, sep: char): string
  {
    if |xs| == 0 then ""
    else if |xs| == 1 then xs[0]
    else xs[0] + [sep] + Join(xs[1..], sep)
  }

  predicate NoSeparator(xs: seq<string>, sep: char) {
    forall i :: 0 <= i < |xs| ==> sep !in xs[i]
  }

  lemma {:induction false} SplitNoSeparator(a: string, sep: char)
    requires sep !in a
    ensures Split(a, sep) == [a]
  {
    if |a| > 0 {
      assert sep !in a[1..];
      SplitNoSeparator(a[1..], sep);
      assert [a[0]] + a[1..] == a;
    }
  }

  /** A piece free of separators followed by a separator splits off as one piece. */
  lemma {:induction false} SplitAfterPiece(a: string, b: string, sep: char)
    requires sep !in a
    ensures Split(a + [sep] + b, sep) == [a] + Split(b, sep)
  {
    var s := a + [sep] + b;
    if |a| == 0 {
      assert s[1..] == b;
    } else {
      assert s[1..] == a[1..] + [sep] + b;
      assert sep !in a[1..];
      SplitAfterPiece(a[1..], b, sep);
      assert [a[0]] + a[1..] == a;
    }
  }

  /** Splitting undoes joining, provided the list is not empty and no element
      contains the separator. */
  lemma {:induction false} SplitJoin(xs: seq<string>, sep: char)
    requires |xs| >= 1 && NoSeparator(xs, sep)
    ensures Split(Join(xs, sep), sep) == xs
  {
    if |xs| == 1 {
      SplitNoSeparator(xs[0], sep);
    } else {
      SplitJoin(xs[1..], sep);
      SplitAfterPiece(xs[0], Join(xs[1..], sep), sep);
      assert [xs[0]] + xs[1..] == xs;
    }
  }

  /** Joining undoes splitting, for every string. */
  lemma {:induction false} JoinSplit(s: string, sep: char)
    ensures Join(Split(s, sep), sep) == s
  {
    if |s| > 0 {
      var rest := Split(s[1..], sep);
      JoinSplit(s[1..], sep);
      if s[0] == sep {
        assert ([""] + rest)[1..] == rest;
        assert s == [sep] + s[1..];
      } else if |rest| == 1 {
        assert s == [s[0]] + s[1..];
      } else {
        var r := [[s[0]] + rest[0]] + rest[1..];
        assert r[1..] == rest[1..];
        assert s == [s[0]] + s[1..];
      }
    }
  }

  /** The empty list does not survive the round trip: it reads back as one empty piece. */
  lemma EmptyListReadsBackAsOnePiece(sep: char)
    ensures Split(Join([], sep), sep) == [""]
  {
  }

  /** An element holding the separator does not survive the round trip either. */
  lemma SeparatorInsideElementSplitsIt()
    ensures Split(Join(["a|b"], '|'), '|') == ["a", "b"]
  {
    SplitAfterPiece("a", "b", '|');
    SplitNoSeparator("b", '|');
    assert "a|b" == "a" + ['|'] + "b";
  }

  /** The last piece of a split of a non-empty string is the last piece of
      the split of its tail, unless the tail is one piece glued to the head. */
  lemma SplitLastStep(s: string, sep: char)
    requires |s| > 0
    ensures var r := Split(s, sep); var rest := Split(s[1..], sep);
      if s[0] != sep && |rest| == 1 then r[|r| - 1] == s else r[|r| - 1] == rest[|rest| - 1]
  {
    var t := s[1..];
    var rest := Split(t, sep);
    var r := Split(s, sep);
    if s[0] == sep {
      assert r == [""] + rest;
    } else if |rest| == 1 {
      assert Occurrences(t, sep) == 0;
      SplitNoSeparator(t, sep);
      assert r == [[s[0]] + t];
      assert [s[0]] + t == s;
    } else {
      assert r == [[s[0]] + rest[0]] + rest[1..];
    }
  }

  /** The last piece of a split: a suffix free of the separator that is
      either all of `s` or preceded by a separator, i.e. the text after the
      last separator. */
  lemma {:induction false} LastPiece(s: string, sep: char)
    ensures var r := Split(s, sep); var p := r[|r| - 1];
      && |p| <= |s| && p == s[|s| - |p|..] && sep !in p
      && (|p| < |s| ==> s[|s| - |p| - 1] == sep)
  {
    if |s| > 0 {
      var t := s[1..];
      var rest := Split(t, sep);
      var q := rest[|rest| - 1];
      LastPiece(t, sep);
      SplitLastStep(s, sep);
      if s[0] == sep || |rest| != 1 {
        assert t[|t| - |q|..] == s[|s| - |q|..];
        if |q| < |t| {
          assert t[|t| - |q| - 1] == s[|s| - |q| - 1];
        }
      }
    }
  }

  predicate IsDigit(c: char) {
    '0' <= c <= '9'
  }

  predicate AllDigits(s: string) {
    forall i :: 0 <= i < |s| ==> IsDigit(s[i])
  }

  function DigitChar(d: int): (c: char)
    requires 0 <= d < 10
    ensures IsDigit(c)
  {
    (d + '0' as int) as char
  }

  function DigitValue(c: char): (d: int)
    requires IsDigit(c)
    ensures 0 <= d < 10
  {
    c as int - '0' as int
  }

  /** The decimal digits of `n`, without leading zeros. */
  function Decimal(n: nat): (r: string)
    ensures |r| >= 1 && AllDigits(r)
  {
    if n < 10 then [DigitChar(n)] else Decimal(n / 10) + [DigitChar(n % 10)]
  }

  /** The value of a string of decimal digits (0 for the empty string). */
  function DigitsValue(s: string): nat
    requires AllDigits(s)
  {
    if |s| == 0 then 0 else DigitsValue(s[..|s| - 1]) * 10 + DigitValue(s[|s| - 1])
  }

  lemma {:induction false} DigitsValueOfDecimal(n: nat)
    ensures DigitsValue(Decimal(n)) == n
  {
    var r := Decimal(n);
    if n >= 10 {
      DigitsValueOfDecimal(n / 10);
      assert r[..|r| - 1] == Decimal(n / 10);
    }
  }

  /** `String(i)` for an integer: an optional minus sign, then the digits. */
  function IntToString(i: int): (r: string)
    ensures |r| >= 1
    ensures forall k :: 0 <= k < |r| ==> r[k] == '-' || IsDigit(r[k])
  {
    if i < 0 then "-" + Decimal(-i) else Decimal(i)
  }

  /** The result of `Number(s)`: a finite number or NaN. */
  datatype Num = Finite(value: int) | NaN

  /** `Number(s)` on the strings this system writes: the empty string is 0,
      optionally signed decimal digits are their value, anything else is NaN. */
  function NumberOf(s: string): Num
  {
    if s == "" then Finite(0)
    else if AllDigits(s) then Finite(DigitsValue(s))
    else if s[0] == '-' && |s| > 1 && AllDigits(s[1..]) then Finite(-(DigitsValue(s[1..]) as int))
    else NaN
  }

  /** Reading a rendered integer back gives the integer. */
  lemma NumberOfIntToString(i: int)
    ensures NumberOf(IntToString(i)) == Finite(i)
  {
    var r := IntToString(i);
    if i < 0 {
      DigitsValueOfDecimal(-i);
      assert r[1..] == Decimal(-i);
      assert !IsDigit(r[0]);
    } else {
      DigitsValueOfDecimal(i);
    }
  }

  lemma IntToStringInjective(a: int, b: int)
    requires IntToString(a) == IntToString(b)
    ensures a == b
  {
    NumberOfIntToString(a);
    NumberOfIntToString(b);
  }

  /** The rendered form of every element of `xs`. */
  function IntsToStrings(xs: seq<int>): (r: seq<string>)
    ensures |r| == |xs|
    ensures forall i :: 0 <= i < |xs| ==> r[i] == IntToString(xs[i])
  {
    seq(|xs|, i requires 0 <= i < |xs| => IntToString(xs[i]))
  }

  /** `Number` applied to every element of `xs`. */
  function StringsToNumbers(xs: seq<string>): (r: seq<Num>)
    ensures |r| == |xs|
    ensures forall i :: 0 <= i < |xs| ==> r[i] == NumberOf(xs[i])
  {
    seq(|xs|, i requires 0 <= i < |xs| => NumberOf(xs[i]))
  }

  /** `String.prototype.toLowerCase` on ASCII letters. */
  function LowerChar(c: char): (r: char)
    ensures 'A' <= c <= 'Z' ==> 'a' <= r <= 'z' && r as int == c as int + 32
    ensures !('A' <= c <= 'Z') ==> r == c
  {
    if 'A' <= c <= 'Z' then (c as int + 32) as char else c
  }

  /** `String.prototype.toUpperCase` on ASCII letters. */
  function UpperChar(c: char): (r: char)
    ensures 'a' <= c <= 'z' ==> 'A' <= r <= 'Z' && r as int == c as int - 32
    ensures !('a' <= c <= 'z') ==> r == c
  {
    if 'a' <= c <= 'z' then (c as int - 32) as char else c
  }

  function Lower(s: string): (r: string)
    ensures |r| == |s| && forall i :: 0 <= i < |s| ==> r[i] == LowerChar(s[i])
  {
    seq(|s|, i requires 0 <= i < |s| => LowerChar(s[i]))
  }

  function Upper(s: string): (r: string)
    ensures |r| == |s| && forall i :: 0 <= i < |s| ==> r[i] == UpperChar(s[i])
  {
    seq(|s|, i requires 0 <= i < |s| => UpperChar(s[i]))
  }
}
