/** Decimal text: printing and parsing of natural numbers, zero padding,
    trailing-zero stripping and the byte order of strings. */
module Text {

  function Pow10(k: nat): (p: nat)
    ensures p > 0
  {
    if k == 0 then 1 else 10 * Pow10(k - 1)
  }

  lemma {:induction false} Pow10Add(a: nat, b: nat)
    ensures Pow10(a + b) == Pow10(a) * Pow10(b)
  {
    if b > 0 {
      Pow10Add(a, b - 1);
      assert Pow10(a + b) == 10 * (Pow10(a) * Pow10(b - 1));
    }
  }

  lemma {:induction false} Pow10Monotone(a: nat, b: nat)
    requires a <= b
    ensures Pow10(a) <= Pow10(b)
  {
    if a < b { Pow10Monotone(a, b - 1); }
  }

  function Digit(d: nat): (c: char)
    requires d < 10
    ensures IsDigit(c) && Value(c) == d
  {
    '0' + d as char
  }

  predicate IsDigit(c: char) {
    '0' <= c <= '9'
  }

  function Value(c: char): (d: nat)
    requires IsDigit(c)
    ensures d < 10
    ensures d == 0 <==> c == '0'
  {
    c as int - '0' as int
  }

  predicate AllDigits(s: string) {
    forall i :: 0 <= i < |s| ==> IsDigit(s[i])
  }

  /** Decimal text as every integer type of the program prints it: nonempty
      digits with no leading zero, except "0" itself. */
  predicate Canonical(s: string) {
    AllDigits(s) && |s| > 0 && (|s| > 1 ==> s[0] != '0')
  }

  function NatText(n: nat): (s: string)
    ensures Canonical(s)
    ensures n > 0 ==> s[0] != '0'
  {
    if n < 10 then [Digit(n)] else NatText(n / 10) + [Digit(n % 10)]
  }

  function TextNat(s: string): nat
    requires AllDigits(s)
  {
    if s == [] then 0 else 10 * TextNat(s[..|s| - 1]) + Value(s[|s| - 1])
  }

  lemma {:induction false} ParsePrint(n: nat)
    ensures TextNat(NatText(n)) == n
  {
    if n >= 10 {
      ParsePrint(n / 10);
      assert NatText(n)[..|NatText(n)| - 1] == NatText(n / 10);
    }
  }

  lemma {:induction false} PrintParse(s: string)
    requires Canonical(s)
    ensures NatText(TextNat(s)) == s
  {
    var front, last := s[..|s| - 1], s[|s| - 1];
    assert s == front + [last];
    assert Digit(Value(last)) == last;
    if front == [] {
      assert TextNat(front) == 0;
    } else {
      PrintParse(front);
      LeadingDigit(front);
      AppendDigit(TextNat(front), Value(last));
    }
  }

  lemma AppendDigit(n: nat, d: nat)
    requires n > 0 && d < 10
    ensures NatText(10 * n + d) == NatText(n) + [Digit(d)]
  {
    assert (10 * n + d) / 10 == n && (10 * n + d) % 10 == d;
  }

  lemma {:induction false} LeadingDigit(s: string)
    requires AllDigits(s) && s != [] && s[0] != '0'
    ensures TextNat(s) >= Pow10(|s| - 1)
  {
    if |s| > 1 { LeadingDigit(s[..|s| - 1]); }
  }

  lemma {:induction false} TextBound(s: string)
    requires AllDigits(s)
    ensures TextNat(s) < Pow10(|s|)
  {
    if s != [] { TextBound(s[..|s| - 1]); }
  }

  /** A number below 10^k prints in at most k digits, and only such a number. */
  lemma PrintedLength(n: nat, k: nat)
    requires k > 0
    ensures n < Pow10(k) <==> |NatText(n)| <= k
  {
    var s := NatText(n);
    ParsePrint(n);
    TextBound(s);
    if |s| <= k {
      Pow10Monotone(|s|, k);
    } else if n > 0 {
      LeadingDigit(s);
      Pow10Monotone(k, |s| - 1);
    }
  }

  lemma {:induction false} TextConcat(a: string, b: string)
    requires AllDigits(a) && AllDigits(b)
    ensures AllDigits(a + b)
    ensures TextNat(a + b) == TextNat(a) * Pow10(|b|) + TextNat(b)
  {
    if b == [] {
      assert a + b == a;
    } else {
      var front := b[..|b| - 1];
      TextConcat(a, front);
      assert (a + b)[..|a + b| - 1] == a + front;
      assert Pow10(|b|) == 10 * Pow10(|front|);
      hide Pow10;
      TenTimes(TextNat(a), Pow10(|front|));
    }
  }

  lemma TenTimes(x: nat, y: nat)
    ensures x * (10 * y) == 10 * (x * y)
  {
  }

  function Zeros(k: nat): (s: string)
    ensures |s| == k && forall i :: 0 <= i < k ==> s[i] == '0'
  {
    seq(k, i => '0')
  }

  lemma {:induction false} ZerosValue(k: nat)
    ensures TextNat(Zeros(k)) == 0
  {
    if k > 0 {
      ZerosValue(k - 1);
      assert Zeros(k)[..k - 1] == Zeros(k - 1);
    }
  }

  /** Left padding with zeros to `width`; a longer text is left alone. */
  function PadStart(s: string, width: nat): (p: string)
    ensures |p| == if |s| < width then width else |s|
    ensures AllDigits(s) ==> AllDigits(p)
  {
    if |s| < width then Zeros(width - |s|) + s else s
  }

  lemma PadValue(s: string, width: nat)
    requires AllDigits(s)
    ensures TextNat(PadStart(s, width)) == TextNat(s)
  {
    hide Pow10, TextNat, Zeros;
    if |s| < width {
      TextConcat(Zeros(width - |s|), s);
      ZerosValue(width - |s|);
    }
  }

  /** Trailing zeros removed. */
  function StripZeros(s: string): (t: string)
    ensures |t| <= |s| && t == s[..|t|]
    ensures t != [] ==> t[|t| - 1] != '0'
    ensures AllDigits(s) ==> AllDigits(t)
  {
    if s != [] && s[|s| - 1] == '0' then StripZeros(s[..|s| - 1]) else s
  }

  lemma {:induction false} StripValue(s: string)
    requires AllDigits(s)
    ensures TextNat(s) == TextNat(StripZeros(s)) * Pow10(|s| - |StripZeros(s)|)
  {
    if s != [] && s[|s| - 1] == '0' {
      var front := s[..|s| - 1];
      StripValue(front);
      var t := StripZeros(s);
      assert Pow10(|s| - |t|) == 10 * Pow10(|front| - |t|);
      hide Pow10;
      TenTimes(TextNat(t), Pow10(|front| - |t|));
    }
  }

  /** Byte order of strings, as Lua and every C-locale comparison uses it. */
  predicate LexLess(a: string, b: string) {
    if b == [] then false
    else if a == [] then true
    else if a[0] != b[0] then a[0] < b[0]
    else LexLess(a[1..], b[1..])
  }

  /** The order of two texts is decided at the first position where they differ. */
  lemma {:induction false} LexAt(a: string, b: string, i: nat)
    requires i <= |a| && i <= |b| && a[..i] == b[..i]
    requires i < |b|
    requires i == |a| || a[i] != b[i]
    ensures LexLess(a, b) <==> i == |a| || a[i] < b[i]
  {
    if i > 0 {
      assert a[0] == a[..i][0] == b[..i][0] == b[0];
      assert a[1..][..i - 1] == a[..i][1..] == b[..i][1..] == b[1..][..i - 1];
      LexAt(a[1..], b[1..], i - 1);
    }
  }

  lemma {:induction false} LexIrreflexive(a: string)
    ensures !LexLess(a, a)
  {
    if a != [] { LexIrreflexive(a[1..]); }
  }

  /** Appending one character to each of two equally long texts. */
  lemma {:induction false} LexAppend(a: string, b: string, x: char, y: char)
    requires |a| == |b|
    ensures LexLess(a + [x], b + [y]) <==> LexLess(a, b) || (a == b && x < y)
  {
    if a == [] {
      assert (a + [x])[1..] == [] && (b + [y])[1..] == [];
    } else {
      assert (a + [x])[1..] == a[1..] + [x] && (b + [y])[1..] == b[1..] + [y];
      assert a == [a[0]] + a[1..] && b == [b[0]] + b[1..];
      LexAppend(a[1..], b[1..], x, y);
    }
  }

  /** On digit texts of equal length, text order is numeric order. */
  lemma {:induction false} EqualLengthOrder(a: string, b: string)
    requires AllDigits(a) && AllDigits(b) && |a| == |b|
    ensures LexLess(a, b) <==> TextNat(a) < TextNat(b)
    ensures a == b <==> TextNat(a) == TextNat(b)
  {
    if a != [] {
      var fa, fb := a[..|a| - 1], b[..|b| - 1];
      var x, y := a[|a| - 1], b[|b| - 1];
      assert a == fa + [x] && b == fb + [y];
      EqualLengthOrder(fa, fb);
      LexAppend(fa, fb, x, y);
      assert Value(x) < Value(y) <==> x < y;
      assert Value(x) == Value(y) <==> x == y;
    }
  }

  /** Lower case of an address or pool id (hexadecimal text, so ASCII). */
  function Lower(s: string): (t: string)
    ensures |t| == |s|
    ensures forall i :: 0 <= i < |s| ==> if 'A' <= s[i] <= 'Z' then 'a' <= t[i] <= 'z' && t[i] - 'a' == s[i] - 'A' else t[i] == s[i]
  {
    seq(|s|, i requires 0 <= i < |s| => LowerChar(s[i]))
  }

  function LowerChar(c: char): char {
    if 'A' <= c <= 'Z' then c - 'A' + 'a' else c
  }
}
