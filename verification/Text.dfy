/** Decimal numerals and separator-delimited text, as the ledgers and the JSON encoder print them. */
module Text {

  function Digit(d: nat): char
    requires d < 10
  {
    ('0' as int + d) as char
  }

  predicate IsDigit(c: char) {
    '0' <= c <= '9'
  }

  function Decimal(n: nat): string {
    if n < 10 then [Digit(n)] else Decimal(n / 10) + [Digit(n % 10)]
  }

  /** The number a string of digits denotes; characters that are not digits count as zero. */
  function DecimalValue(s: string): nat {
    if s == "" then 0
    else DecimalValue(s[..|s| - 1]) * 10 + (if IsDigit(s[|s| - 1]) then s[|s| - 1] as int - '0' as int else 0)
  }

  lemma {:induction false} DecimalReadsBack(n: nat)
    ensures DecimalValue(Decimal(n)) == n
    ensures |Decimal(n)| > 0
    ensures forall c :: c in Decimal(n) ==> IsDigit(c)
  {
    if n < 10 {
      assert Decimal(n)[..0] == "";
    } else {
      DecimalReadsBack(n / 10);
      var s := Decimal(n);
      assert s[..|s| - 1] == Decimal(n / 10);
      assert s[|s| - 1] == Digit(n % 10);
    }
  }

  lemma {:induction false} DecimalHasNoLeadingZero(n: nat)
    ensures |Decimal(n)| > 0 && (Decimal(n)[0] == '0' ==> n == 0 && |Decimal(n)| == 1)
  {
    if n >= 10 {
      DecimalHasNoLeadingZero(n / 10);
      assert Decimal(n)[0] == Decimal(n / 10)[0];
    }
  }

  /** Python's `str(n)` of an integer. */
  function IntText(n: int): string {
    if n < 0 then "-" + Decimal(-n) else Decimal(n)
  }

  lemma IntTextHasNo(n: int, c: char)
    requires !IsDigit(c) && c != '-'
    ensures c !in IntText(n)
  {
    DecimalReadsBack(if n < 0 then -n else n);
  }

  lemma IntTextInjective(m: int, n: int)
    requires IntText(m) == IntText(n)
    ensures m == n
  {
    DecimalReadsBack(if m < 0 then -m else m);
    DecimalReadsBack(if n < 0 then -n else n);
    if m < 0 {
      assert IntText(m)[0] == '-';
      assert Decimal(-m) == IntText(m)[1..];
    }
    if n < 0 {
      assert IntText(n)[0] == '-';
      assert Decimal(-n) == IntText(n)[1..];
    }
    if m >= 0 { assert IsDigit(IntText(m)[0]); }
    if n >= 0 { assert IsDigit(IntText(n)[0]); }
  }

  /** The first separator splits a text in one way only. */
  lemma FirstSeparatorSplits(a: string, b: string, c: string, d: string, sep: char)
    requires a + [sep] + b == c + [sep] + d
    requires sep !in a && sep !in c
    ensures a == c && b == d
  {
    var s, t := a + [sep] + b, c + [sep] + d;
    assert s[|a|] == sep && t[|c|] == sep;
    assert forall i :: 0 <= i < |a| ==> s[i] == a[i] && a[i] in a;
    assert forall i :: 0 <= i < |c| ==> t[i] == c[i] && c[i] in c;
    assert |a| == |c|;
    assert a == s[..|a|] == t[..|c|] == c;
    assert b == s[|a| + 1..] == t[|c| + 1..] == d;
  }

  /** So does the last one. */
  lemma LastSeparatorSplits(a: string, b: string, c: string, d: string, sep: char)
    requires a + [sep] + b == c + [sep] + d
    requires sep !in b && sep !in d
    ensures a == c && b == d
  {
    var s, t := a + [sep] + b, c + [sep] + d;
    assert s[|a|] == sep && t[|c|] == sep;
    assert forall i :: |a| < i < |s| ==> s[i] == b[i - |a| - 1] && s[i] in b;
    assert forall i :: |c| < i < |t| ==> t[i] == d[i - |c| - 1] && t[i] in d;
    assert |a| == |c|;
    assert a == s[..|a|] == t[..|c|] == c;
    assert b == s[|a| + 1..] == t[|c| + 1..] == d;
  }
}
