/** Strings: splitting at '/', token escapes and decimal numerals. */
module Text {

  // ----- splitting -----

  /** Python's s.split("/"): always at least one part. */
  function Split(s: string): (parts: seq<string>)
    ensures |parts| > 0
    ensures forall i :: 0 <= i < |parts| ==> '/' !in parts[i]
  {
    if s == "" then [""]
    else if s[0] == '/' then [""] + Split(s[1..])
    else var rest := Split(s[1..]); [[s[0]] + rest[0]] + rest[1..]
  }

  /** Python's "/".join(parts). */
  function Join(parts: seq<string>): string {
    if parts == [] then ""
    else if |parts| == 1 then parts[0]
    else parts[0] + "/" + Join(parts[1..])
  }

  lemma {:induction false} JoinPrependChar(c: char, parts: seq<string>)
    requires |parts| > 0
    ensures Join([[c] + parts[0]] + parts[1..]) == [c] + Join(parts)
  {
    var longer := [[c] + parts[0]] + parts[1..];
    assert longer[1..] == parts[1..];
    if |parts| > 1 {
      assert Join(longer) == ([c] + parts[0]) + "/" + Join(parts[1..]);
    }
  }

  lemma {:induction false} JoinSplit(s: string)
    ensures Join(Split(s)) == s
  {
    if s != "" {
      JoinSplit(s[1..]);
      var rest := Split(s[1..]);
      if s[0] == '/' {
        assert ([""] + rest)[1..] == rest;
      } else {
        JoinPrependChar(s[0], rest);
      }
    }
  }

  lemma {:induction false} SplitPart(part: string, tail: string)
    requires '/' !in part
    ensures Split(part + "/" + tail) == [part] + Split(tail)
    ensures Split(part) == [part]
  {
    if part != "" {
      SplitPart(part[1..], tail);
      assert part + "/" + tail == [part[0]] + (part[1..] + "/" + tail);
      assert part == [part[0]] + part[1..];
    } else {
      assert part + "/" + tail == "/" + tail;
    }
  }

  lemma {:induction false} SplitJoin(parts: seq<string>)
    requires |parts| > 0
    requires forall i :: 0 <= i < |parts| ==> '/' !in parts[i]
    ensures Split(Join(parts)) == parts
  {
    SplitPart(parts[0], Join(parts[1..]));
    if |parts| > 1 {
      SplitJoin(parts[1..]);
    }
  }

  lemma SplitSlash(s: string)
    ensures Split("/" + s) == [""] + Split(s)
  {
    assert ("/" + s)[1..] == s;
  }

  lemma SplitChar(c: char, s: string)
    requires c != '/'
    ensures Split([c] + s) == [[c] + Split(s)[0]] + Split(s)[1..]
  {
    assert ([c] + s)[1..] == s;
  }

  lemma ConsChar(c: char, parts: seq<string>, more: seq<string>)
    requires parts != []
    ensures [[c] + (parts + more)[0]] + (parts + more)[1..] == ([[c] + parts[0]] + parts[1..]) + more
  {}

  lemma {:induction false} SplitAppend(a: string, b: string)
    ensures Split(a + "/" + b) == Split(a) + Split(b)
  {
    if a == "" {
      assert a + "/" + b == "/" + b;
      SplitSlash(b);
    } else {
      SplitAppend(a[1..], b);
      SplitAppendStep(a[0], a[1..], b);
      assert [a[0]] + a[1..] == a;
    }
  }

  lemma SplitAppendStep(c: char, a: string, b: string)
    requires Split(a + "/" + b) == Split(a) + Split(b)
    ensures Split([c] + a + "/" + b) == Split([c] + a) + Split(b)
  {
    var rest := a + "/" + b;
    assert [c] + a + "/" + b == [c] + rest;
    if c == '/' {
      SplitSlash(a);
      SplitSlash(rest);
      assert [""] + (Split(a) + Split(b)) == ([""] + Split(a)) + Split(b);
    } else {
      SplitChar(c, a);
      SplitChar(c, rest);
      ConsChar(c, Split(a), Split(b));
    }
  }

  // ----- decimal numerals -----

  const DIGITS := "0123456789"

  predicate IsDigit(c: char) { '0' <= c <= '9' }

  function DigitValue(c: char): (d: nat)
    requires IsDigit(c)
    ensures d < 10 && DIGITS[d] == c
  {
    c as int - '0' as int
  }

  function Decimal(n: nat): (s: string)
    ensures |s| > 0
    ensures forall i :: 0 <= i < |s| ==> IsDigit(s[i])
    ensures s[0] == '0' ==> s == "0"
    ensures n > 0 ==> s[0] != '0'
  {
    if n < 10 then [DIGITS[n]] else Decimal(n / 10) + [DIGITS[n % 10]]
  }

  /** int() on a digit string. */
  function Numeral(s: string): nat
    requires forall i :: 0 <= i < |s| ==> IsDigit(s[i])
  {
    if s == "" then 0 else 10 * Numeral(s[..|s| - 1]) + DigitValue(s[|s| - 1])
  }

  lemma {:induction false} NumeralDecimal(n: nat)
    ensures Numeral(Decimal(n)) == n
  {
    var s := Decimal(n);
    if n >= 10 {
      NumeralDecimal(n / 10);
      assert s[..|s| - 1] == Decimal(n / 10);
    } else {
      assert s[..0] == "";
    }
  }

  /** Digit strings without a leading zero are exactly the decimal numerals. */
  lemma {:induction false} DecimalNumeral(s: string)
    requires |s| > 0 && forall i :: 0 <= i < |s| ==> IsDigit(s[i])
    requires s[0] == '0' ==> |s| == 1
    ensures Decimal(Numeral(s)) == s
    ensures s[0] != '0' ==> Numeral(s) > 0
  {
    var front, last := s[..|s| - 1], s[|s| - 1];
    if |s| == 1 {
      assert Numeral(front) == 0;
    } else {
      DecimalNumeral(front);
      assert Numeral(s) / 10 == Numeral(front) && Numeral(s) % 10 == DigitValue(last);
      assert s == front + [last];
    }
  }

  lemma DecimalInjective(m: nat, n: nat)
    requires Decimal(m) == Decimal(n)
    ensures m == n
  {
    NumeralDecimal(m);
    NumeralDecimal(n);
  }

  /** Numerals are written in base ten, most significant digit first. */
  lemma {:induction false} DecimalDigits(n: nat)
    ensures n < 10 ==> Decimal(n) == [('0' as int + n) as char]
    ensures n >= 10 ==> Decimal(n) == Decimal(n / 10) + [('0' as int + n % 10) as char]
  {
    assert DigitValue(DIGITS[n % 10]) == n % 10;
  }
}
