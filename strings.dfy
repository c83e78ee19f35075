/** The std::string ordering used by std::map and std::multiset, and decimal text of integers. */
module Strings {

  /** std::string operator<: lexicographic by character, a proper prefix comes first. */
  predicate Less(a: string, b: string)
    decreases |a|
  {
    |b| > 0 && (|a| == 0 || a[0] < b[0] || (a[0] == b[0] && Less(a[1..], b[1..])))
  }

  lemma {:induction false} LessIrreflexive(a: string)
    ensures !Less(a, a)
    decreases |a|
  {
    if |a| > 0 {
      LessIrreflexive(a[1..]);
    }
  }

  lemma {:induction false} LessTransitive(a: string, b: string, c: string)
    requires Less(a, b) && Less(b, c)
    ensures Less(a, c)
    decreases |a|
  {
    if |a| > 0 && a[0] == b[0] && b[0] == c[0] {
      LessTransitive(a[1..], b[1..], c[1..]);
    }
  }

  /** Any two strings are equal or ordered one way: the order is total. */
  lemma {:induction false} LessTotal(a: string, b: string)
    ensures a == b || Less(a, b) || Less(b, a)
    decreases |a|
  {
    if |a| > 0 && |b| > 0 && a[0] == b[0] {
      LessTotal(a[1..], b[1..]);
      if a[1..] == b[1..] {
        assert a == [a[0]] + a[1..] && b == [b[0]] + b[1..];
      }
    }
  }

  lemma {:induction false} LessAsymmetric(a: string, b: string)
    requires Less(a, b)
    ensures !Less(b, a)
  {
    if Less(b, a) {
      LessTransitive(a, b, a);
      LessIrreflexive(a);
    }
  }

  function DigitChar(d: nat): (c: char)
    requires d < 10
    ensures '0' <= c <= '9'
  {
    "0123456789"[d]
  }

  function DigitValue(c: char): (d: nat)
    requires '0' <= c <= '9'
    ensures d < 10 && DigitChar(d) == c
  {
    (c as int - '0' as int) as nat
  }

  /** Decimal digits of a natural number, most significant first, no leading zeros. */
  function NatText(n: nat): (s: string)
    ensures |s| > 0 && IsDigits(s)
    decreases n
  {
    if n < 10 then [DigitChar(n)] else NatText(n / 10) + [DigitChar(n % 10)]
  }

  /** The text that lexical_cast<string> gives for a signed integer. */
  function IntText(n: int): (s: string)
    ensures |s| > 0
  {
    if n < 0 then "-" + NatText(-n) else NatText(n)
  }

  /** Reads back a run of decimal digits. */
  function ParseNat(s: string): nat
    requires IsDigits(s)
    decreases |s|
  {
    if |s| == 0 then 0 else 10 * ParseNat(s[..|s| - 1]) + DigitValue(s[|s| - 1])
  }

  /** The shape of lexical_cast<string> of a signed integer: an optional minus, then digits. */
  predicate IsIntText(s: string)
  {
    (|s| > 1 && s[0] == '-' && IsDigits(s[1..])) || (|s| > 0 && IsDigits(s))
  }

  predicate IsDigits(s: string)
  {
    forall i :: 0 <= i < |s| ==> '0' <= s[i] <= '9'
  }

  function ParseInt(s: string): int
    requires IsIntText(s)
  {
    if s[0] == '-' then 0 - ParseNat(s[1..]) else ParseNat(s)
  }

  lemma {:induction false} ParseNatText(n: nat)
    ensures ParseNat(NatText(n)) == n
    decreases n
  {
    if n >= 10 {
      var s := NatText(n);
      assert s[..|s| - 1] == NatText(n / 10);
      ParseNatText(n / 10);
    }
  }

  /** The decimal text of an integer reads back as that integer, so distinct times print differently. */
  lemma IntTextRoundTrip(n: int)
    ensures IsIntText(IntText(n)) && ParseInt(IntText(n)) == n
  {
    if n < 0 {
      NegativeText(-n);
    } else {
      ParseNatText(n);
    }
  }

  lemma NegativeText(m: nat)
    requires m > 0
    ensures var s := "-" + NatText(m); IsIntText(s) && ParseInt(s) == -(m as int)
  {
    var t := NatText(m);
    var s := "-" + t;
    assert s[0] == '-' && s[1..] == t;
    ParseNatText(m);
  }

  /** Occurrences of one character in a string. */
  function Count(ch: char, s: string): nat
  {
    if |s| == 0 then 0 else (if s[0] == ch then 1 else 0) + Count(ch, s[1..])
  }

  lemma {:induction false} CountAppend(ch: char, a: string, b: string)
    ensures Count(ch, a + b) == Count(ch, a) + Count(ch, b)
    decreases |a|
  {
    if |a| > 0 {
      assert (a + b)[1..] == a[1..] + b;
      CountAppend(ch, a[1..], b);
    } else {
      assert a + b == b;
    }
  }

  lemma {:induction false} CountAbsent(ch: char, s: string)
    requires ch !in s
    ensures Count(ch, s) == 0
    decreases |s|
  {
    if |s| > 0 {
      assert s == [s[0]] + s[1..];
      CountAbsent(ch, s[1..]);
    }
  }

  /** Nothing written before and after a text leaves it as it is. */
  lemma Unwrapped<T>(a: seq<T>)
    ensures [] + a + [] == a && a + [] == a
  {
  }

  /** Text written piece by piece is the text of the pieces joined. */
  lemma Joined<T>(before: seq<T>, a: seq<T>, b: seq<T>)
    ensures before + a + b == before + (a + b)
  {
  }

  /** A prefix followed by the next element is the one-longer prefix. */
  lemma TakeSnoc<T>(s: seq<T>, i: nat)
    requires i < |s|
    ensures s[..i] + [s[i]] == s[..i + 1]
  {
  }
}
