/** Printing wei as ETH: the server's division-based printer, the browser's string-slicing printer,
    and the number both texts stand for. */
module Wei {
  import opened Base
  import opened Arithmetic
  import opened Text

  const DECIMALS := 18
  const WAD: nat := 1_000_000_000_000_000_000  // 10^DECIMALS

  lemma WadIsPower()
    ensures WAD == Pow10(DECIMALS)
  {
    assert Pow10(9) == 1_000_000_000;
    Pow10Add(9, 9);
  }

  /** weiToEth on the server, for amounts from 0. */
  function ServerText(n: nat): string {
    if n == 0 then "0"
    else
      var whole, frac := n / WAD, n % WAD;
      if frac == 0 then NatText(whole)
      else NatText(whole) + "." + StripZeros(PadStart(NatText(frac), DECIMALS))
  }

  /** weiToEth in the browser: it slices the decimal text. The final `|| "0"` of the first branch never
      applies, since the text before it is not empty. */
  function BrowserText(n: nat): string {
    var s := NatText(n);
    if |s| <= DECIMALS then "0." + StripZeros(PadStart(s, DECIMALS))
    else
      var whole, frac := s[..|s| - DECIMALS], StripZeros(s[|s| - DECIMALS..]);
      if frac != [] then whole + "." + frac else whole
  }

  /** The first '.' of a text, or its length. */
  function Point(s: string): (i: nat)
    ensures i <= |s| && (i < |s| ==> s[i] == '.') && forall k :: 0 <= k < i ==> s[k] != '.'
  {
    if s == [] || s[0] == '.' then 0 else 1 + Point(s[1..])
  }

  function Amount(whole: string, frac: string): nat
    requires AllDigits(whole) && AllDigits(frac) && |frac| <= DECIMALS
  {
    TextNat(whole) * WAD + TextNat(frac) * Pow10(DECIMALS - |frac|)
  }

  /** The wei a decimal ETH text stands for, when it is one: digits, and perhaps a point and up to 18 more. */
  function Parse(s: string): Option<nat> {
    ParseAt(s, Point(s))
  }

  function ParseAt(s: string, i: nat): Option<nat>
    requires i <= |s|
  {
    if i == |s| then
      if s != [] && AllDigits(s) then Some(Amount(s, [])) else None
    else
      var whole, frac := s[..i], s[i + 1..];
      if whole != [] && AllDigits(whole) && AllDigits(frac) && |frac| <= DECIMALS
      then Some(Amount(whole, frac)) else None
  }

  lemma {:induction false} PointAfterDigits(a: string, b: string)
    requires AllDigits(a)
    ensures Point(a + "." + b) == |a|
    ensures Point(a) == |a|
  {
    if a == [] {
      assert ("." + b)[0] == '.';
      assert a + "." + b == "." + b;
    } else {
      PointAfterDigits(a[1..], b);
      assert (a + "." + b)[1..] == a[1..] + "." + b;
    }
  }

  lemma ParsePoint(whole: string, frac: string)
    requires whole != [] && AllDigits(whole) && AllDigits(frac) && |frac| <= DECIMALS
    ensures Parse(whole + "." + frac) == Some(Amount(whole, frac))
    ensures Parse(whole) == Some(Amount(whole, []))
  {
    hide Point, Amount;
    var s := whole + "." + frac;
    PointAfterDigits(whole, frac);
    assert s[..|whole|] == whole && s[|whole| + 1..] == frac;
  }

  lemma PaddedFraction(frac: nat)
    requires frac < WAD
    ensures var p := PadStart(NatText(frac), DECIMALS);
            |p| == DECIMALS && AllDigits(p) && TextNat(p) == frac
  {
    WadIsPower();
    PrintedLength(frac, DECIMALS);
    ParsePrint(frac);
    PadValue(NatText(frac), DECIMALS);
  }

  /** Round trip: parsing the server's text gives back the amount, for every amount from 0; and the text
      is canonical: no zero leads it but that of a zero whole part, and its fraction, if any, has no trailing
      zero. */
  lemma ServerRoundTrip(n: nat)
    ensures Parse(ServerText(n)) == Some(n)
    ensures var s := ServerText(n); s != [] && (|s| > 1 && s[1] != '.' ==> s[0] != '0')
    ensures var s := ServerText(n); Point(s) < |s| ==> Point(s) + 1 < |s| && s[|s| - 1] != '0'
  {
    var whole, frac := n / WAD, n % WAD;
    ServerShape(n, whole, frac);
    hide ServerText, Point, Parse, Amount, TextNat, NatText, Pow10, StripZeros, PadStart;
    if frac == 0 {
      WholeRoundTrip(whole);
    } else {
      FractionRoundTrip(whole, frac);
    }
  }

  lemma ServerShape(n: nat, whole: nat, frac: nat)
    requires whole == n / WAD && frac == n % WAD
    ensures n == whole * WAD + frac
    ensures ServerText(n) == if frac == 0 then NatText(whole)
                             else NatText(whole) + "." + StripZeros(PadStart(NatText(frac), DECIMALS))
  {
    assert NatText(0) == "0";
    hide NatText, StripZeros, PadStart;
  }

  lemma WholeRoundTrip(whole: nat)
    ensures Parse(NatText(whole)) == Some(whole * WAD) && Point(NatText(whole)) == |NatText(whole)|
  {
    hide Point, Parse, NatText, Pow10;
    ParsePrint(whole);
    PointAfterDigits(NatText(whole), []);
    ParsePoint(NatText(whole), []);
    assert TextNat([]) == 0;
  }

  lemma FractionRoundTrip(whole: nat, frac: nat)
    requires 0 < frac < WAD
    ensures var t := NatText(whole) + "." + StripZeros(PadStart(NatText(frac), DECIMALS));
            && Parse(t) == Some(whole * WAD + frac)
            && Point(t) + 1 < |t| && t[|t| - 1] != '0'
  {
    hide Point, Parse, Amount, TextNat, NatText, Pow10, StripZeros, PadStart;
    var w, f := NatText(whole), StripZeros(PadStart(NatText(frac), DECIMALS));
    ParsePrint(whole);
    FractionText(frac);
    assert w != [] && AllDigits(w);
    ParsePoint(w, f);
    PointAfterDigits(w, f);
    AmountOf(w, f, whole, frac);
    assert Point(w + "." + f) == |w|;
  }

  lemma AmountOf(w: string, f: string, whole: nat, frac: nat)
    requires AllDigits(w) && AllDigits(f) && |f| <= DECIMALS
    requires TextNat(w) == whole && TextNat(f) * Pow10(DECIMALS - |f|) == frac
    ensures Amount(w, f) == whole * WAD + frac
  {
  }

  /** The printed fraction: digits, not all stripped, that stand for the remainder. */
  lemma FractionText(frac: nat)
    requires 0 < frac < WAD
    ensures var t := StripZeros(PadStart(NatText(frac), DECIMALS));
            && AllDigits(t) && 0 < |t| <= DECIMALS && t[|t| - 1] != '0'
            && TextNat(t) * Pow10(DECIMALS - |t|) == frac
  {
    var p := PadStart(NatText(frac), DECIMALS);
    PaddedFraction(frac);
    StripValue(p);
    StrippedAway(p);
    hide TextNat, NatText, Pow10, StripZeros, PadStart;
  }

  /** Cutting a long decimal text 18 digits from its end divides the number by 10^18. */
  lemma Sliced(n: nat)
    requires |NatText(n)| > DECIMALS
    ensures var s := NatText(n); var k := |s| - DECIMALS;
            s[..k] == NatText(n / WAD) && s[k..] == PadStart(NatText(n % WAD), DECIMALS)
  {
    var s := NatText(n);
    var a, b := s[..|s| - DECIMALS], s[|s| - DECIMALS..];
    assert s == a + b;
    assert Canonical(a) && AllDigits(b);
    ParsePrint(n);
    TextConcat(a, b);
    TextBound(b);
    WadIsPower();
    Quotient(n, WAD, TextNat(a), TextNat(b));
    PrintParse(a);
    PaddedFraction(n % WAD);
    EqualLengthOrder(b, PadStart(NatText(n % WAD), DECIMALS));
  }

  lemma StrippedAway(p: string)
    requires AllDigits(p)
    ensures StripZeros(p) == [] <==> TextNat(p) == 0
  {
    var t := StripZeros(p);
    StripValue(p);
    if t != [] {
      assert TextNat(t) > 0;
      assert TextNat(t) * Pow10(|p| - |t|) > 0 by { MulGap(TextNat(t), 0, Pow10(|p| - |t|)); }
    }
  }

  /** The two printers return the same text for every amount but 0, where the browser prints "0.". */
  lemma PrintersAgree(n: nat)
    ensures ServerText(n) == BrowserText(n) <==> n > 0
    ensures n == 0 ==> BrowserText(n) == "0."
  {
    var s := NatText(n);
    WadIsPower();
    PrintedLength(n, DECIMALS);
    var p := PadStart(NatText(n % WAD), DECIMALS);
    PaddedFraction(n % WAD);
    StrippedAway(p);
    if |s| <= DECIMALS {
      Quotient(n, WAD, 0, n);
      assert NatText(0) == "0";
    } else {
      Sliced(n);
    }
  }
}
