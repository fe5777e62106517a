/** The Redis candle: the Lua script that keeps OHLCV fields as text, and how far
    its text agrees with the Postgres row built from the same trades. */
module CandleCache {
  import opened Base
  import opened Arithmetic
  import opened Text
  import opened Candles

  // ----- Lua numbers: IEEE doubles, printed with 14 significant digits -----

  function Pow2(k: nat): (p: nat)
    ensures p > 0
  {
    if k == 0 then 1 else 2 * Pow2(k - 1)
  }

  const MANTISSA_LIMIT: nat := 0x20_0000_0000_0000  // 2^53

  /** How many units the nearest multiple of `unit` has, ties to the even count. */
  function Rounded(x: nat, unit: nat): (q: nat)
    requires unit > 0
    ensures x / unit <= q <= x / unit + 1
    ensures x % unit == 0 ==> q == x / unit
  {
    var q, r := x / unit, x % unit;
    if 2 * r < unit || (2 * r == unit && q % 2 == 0) then q else q + 1
  }

  function Exponent(x: nat): nat {
    if x < MANTISSA_LIMIT then 0 else 1 + Exponent(x / 2)
  }

  /** The double nearest to a natural number (no overflow: far above any sum of volumes). */
  function DoubleOf(x: nat): nat {
    Rounded(x, Pow2(Exponent(x))) * Pow2(Exponent(x))
  }

  /** A number as text in the hash. `Sci(d, e)` stands for the scientific form
      d[0].d[1..]e+e, which "%.14g" prints from 10^14 on. */
  datatype NumberText = Plain(digits: string) | Sci(mantissa: string, exponent: nat)

  const PRINT_DIGITS := 14
  const PRINT_LIMIT: nat := 100_000_000_000_000  // 10^PRINT_DIGITS

  ghost predicate ValidText(t: NumberText) {
    match t
    case Plain(s) => Canonical(s)
    case Sci(m, e) => AllDigits(m) && |m| <= e + 1
  }

  function Mantissa(x: nat, shift: nat): (m: string)
    ensures Canonical(m)
  {
    NatText(Rounded(x, Pow10(shift)))
  }

  function PrintNumber(x: nat): (t: NumberText)
    ensures ValidText(t)
    ensures t.Plain? <==> x < PRINT_LIMIT
  {
    if x < PRINT_LIMIT then Plain(NatText(x))
    else
      PrintLimit();
      PrintedLength(x, PRINT_DIGITS);
      var shift: nat := |NatText(x)| - PRINT_DIGITS;
      var m := Mantissa(x, shift);
      Sci(StripZeros(m), shift + |m| - 1)
  }

  function ToNumber(t: NumberText): nat
    requires ValidText(t)
  {
    match t
    case Plain(s) => DoubleOf(TextNat(s))
    case Sci(m, e) => DoubleOf(TextNat(m) * Pow10(e + 1 - |m|))
  }

  function AddText(a: NumberText, b: NumberText): (t: NumberText)
    requires ValidText(a) && ValidText(b)
    ensures ValidText(t)
  {
    PrintNumber(DoubleOf(ToNumber(a) + ToNumber(b)))
  }

  lemma HalfQuotient(x: nat, p: nat)
    requires p > 0
    ensures x / (2 * p) == x / 2 / p
    ensures x / (2 * p) * (2 * p) == 2 * (x / 2 / p * p)
  {
    var h, q := x / 2, x / 2 / p;
    assert h == p * q + h % p;
    assert x == 2 * h + x % 2;
    assert 2 * p * q == 2 * (p * q);
    Quotient(x, 2 * p, q, 2 * (h % p) + x % 2);
  }

  lemma {:induction false} MantissaBounds(x: nat)
    requires x >= MANTISSA_LIMIT
    ensures x / Pow2(Exponent(x)) * Pow2(Exponent(x)) >= MANTISSA_LIMIT
  {
    var p := Pow2(Exponent(x / 2));
    HalfQuotient(x, p);
    if x / 2 >= MANTISSA_LIMIT {
      MantissaBounds(x / 2);
    } else {
      assert Exponent(x / 2) == 0 && p == 1;
    }
  }

  lemma ScaleUp(a: nat, b: nat, unit: nat)
    requires a <= b
    ensures a * unit <= b * unit
  {
    if a < b { MulGap(unit, a, b); }
  }

  lemma DoubleFacts(x: nat)
    ensures x < MANTISSA_LIMIT ==> DoubleOf(x) == x
    ensures x >= MANTISSA_LIMIT ==> DoubleOf(x) >= MANTISSA_LIMIT
  {
    if x < MANTISSA_LIMIT {
      assert Pow2(Exponent(x)) == 1;
    } else {
      hide Rounded;
      MantissaBounds(x);
      ScaleUp(x / Pow2(Exponent(x)), Rounded(x, Pow2(Exponent(x))), Pow2(Exponent(x)));
    }
  }

  lemma PrintLimit()
    ensures Pow10(PRINT_DIGITS) == PRINT_LIMIT
  {
    assert Pow10(7) == 10_000_000;
    Pow10Add(7, 7);
  }

  /** Scaling back: the printed mantissa and exponent denote the rounded number. */
  lemma SciValue(r: nat, shift: nat)
    ensures var m := NatText(r); var t := StripZeros(m);
            TextNat(t) * Pow10(|m| - |t| + shift) == r * Pow10(shift)
  {
    var m := NatText(r);
    var t := StripZeros(m);
    ParsePrint(r);
    StripValue(m);
    Pow10Add(|m| - |t|, shift);
    MulAssociative(TextNat(t), Pow10(|m| - |t|), Pow10(shift));
  }

  lemma RoundedAtLeast(x: nat, unit: nat, q: nat)
    requires unit > 0 && x >= q * unit
    ensures Rounded(x, unit) >= q
  {
    if x / unit < q {
      MulGap(unit, x / unit, q);
    }
  }

  lemma MantissaLarge(x: nat, shift: int)
    requires x >= PRINT_LIMIT && shift == |NatText(x)| - PRINT_DIGITS
    ensures shift > 0 && Rounded(x, Pow10(shift)) >= Pow10(PRINT_DIGITS - 1)
  {
    hide Pow10, NatText, Rounded;
    PrintLimit();
    PrintedLength(x, PRINT_DIGITS);
    PrintedLength(x, PRINT_DIGITS - 1 + shift);
    Pow10Add(PRINT_DIGITS - 1, shift);
    RoundedAtLeast(x, Pow10(shift), Pow10(PRINT_DIGITS - 1));
  }

  /** Printing never falls below the limit once the number is at or above it. */
  lemma ReadBackLarge(x: nat)
    requires x >= PRINT_LIMIT
    ensures ToNumber(PrintNumber(x)) >= PRINT_LIMIT
  {
    hide Rounded, DoubleOf, NatText, StripZeros, Pow10;
    var shift := |NatText(x)| - PRINT_DIGITS;
    MantissaLarge(x, shift);
    var r := Rounded(x, Pow10(shift));
    LargeProduct(r, shift);
    SciValue(r, shift);
    DoubleFacts(r * Pow10(shift));
  }

  lemma LargeProduct(r: nat, shift: nat)
    requires r >= Pow10(PRINT_DIGITS - 1) && shift > 0
    ensures r * Pow10(shift) >= PRINT_LIMIT
  {
    PrintLimit();
    Pow10Add(PRINT_DIGITS - 1, 1);
    Pow10Monotone(1, shift);
    assert Pow10(1) == 10;
    hide Pow10;
    ScaleUp(10, Pow10(shift), r);
  }

  // ----- What the numbers and their texts stand for -----

  /** The number a text denotes. */
  function ValueOf(t: NumberText): nat
    requires ValidText(t)
  {
    match t
    case Plain(s) => TextNat(s)
    case Sci(m, e) => TextNat(m) * Pow10(e + 1 - |m|)
  }

  function Distance(a: int, b: int): (d: nat)
    ensures d == a - b || d == b - a
  {
    if a < b then b - a else a - b
  }

  /** The multiple of `unit` is a nearest one, and of two equally near the one with an even count. */
  lemma RoundedNearest(x: nat, unit: nat)
    requires unit > 0
    ensures var q := Rounded(x, unit);
            && 2 * Distance(q * unit, x) <= unit
            && (2 * Distance(q * unit, x) == unit ==> q % 2 == 0)
  {
    var f, r := x / unit, x % unit;
    assert x == f * unit + r;
    assert (f + 1) * unit == f * unit + unit;
  }

  lemma {:induction false} ExponentMeaning(x: nat)
    requires x >= MANTISSA_LIMIT
    ensures Pow2(Exponent(x)) * 0x10_0000_0000_0000 <= x < Pow2(Exponent(x)) * 0x20_0000_0000_0000
  {
    if x / 2 >= MANTISSA_LIMIT {
      ExponentMeaning(x / 2);
    } else {
      assert Exponent(x / 2) == 0 && Pow2(0) == 1 && Pow2(1) == 2;
    }
  }

  /** The double of a natural number: itself below 2^53; from there on the nearest multiple of the power of
      two that leaves a 53-bit count (ties to the even count). */
  lemma DoubleMeaning(x: nat)
    ensures x < 0x20_0000_0000_0000 ==> DoubleOf(x) == x
    ensures x >= 0x20_0000_0000_0000 ==>
              var unit := Pow2(Exponent(x));
              && unit * 0x10_0000_0000_0000 <= x < unit * 0x20_0000_0000_0000
              && DoubleOf(x) == Rounded(x, unit) * unit
              && 2 * Distance(DoubleOf(x), x) <= unit
              && (2 * Distance(DoubleOf(x), x) == unit ==> Rounded(x, unit) % 2 == 0)
    ensures 0x20_0000_0000_0000 * Distance(DoubleOf(x), x) <= x
  {
    DoubleFacts(x);
    if x >= MANTISSA_LIMIT {
      hide Rounded, Exponent;
      ExponentMeaning(x);
      RoundedNearest(x, Pow2(Exponent(x)));
    }
  }

  /** The scientific form, digit by digit: at most 14 of them, no zero in front or behind, and the number
      they denote is nearest to x among those of 14 digits (ties to the even last digit). */
  lemma PrintMeaning(x: nat)
    requires x >= 100_000_000_000_000
    ensures PrintNumber(x).Sci? && |NatText(x)| > 14
    ensures var m, e, v, unit := PrintNumber(x).mantissa, PrintNumber(x).exponent, ValueOf(PrintNumber(x)), Pow10(|NatText(x)| - 14);
            && 0 < |m| <= 14 && m[0] != '0' && m[|m| - 1] != '0' && |m| <= e + 1
            && v == TextNat(m) * Pow10(e + 1 - |m|)
            && v % unit == 0 && 2 * Distance(v, x) <= unit && (2 * Distance(v, x) == unit ==> v % (2 * unit) == 0)
            && x >= 10_000_000_000_000 * unit
  {
    hide Rounded, DoubleOf, NatText, StripZeros, Pow10;
    var shift := |NatText(x)| - PRINT_DIGITS;
    MantissaLarge(x, shift);
    var r, unit := Rounded(x, Pow10(shift)), Pow10(shift);
    SciValue(r, shift);
    MantissaDigits(x, r, shift);
    RoundedNearest(x, unit);
    Quotient(r * unit, unit, r, 0);
    if r % 2 == 0 { EvenMultiple(r, unit); }
    UnitSize(x, shift);
  }

  lemma EvenMultiple(r: nat, unit: nat)
    requires r % 2 == 0 && unit > 0
    ensures r * unit % (2 * unit) == 0
  {
    var h := r / 2;
    assert r * unit == 2 * unit * h;
    Quotient(r * unit, 2 * unit, h, 0);
  }

  lemma UnitSize(x: nat, shift: nat)
    requires x >= PRINT_LIMIT && shift == |NatText(x)| - PRINT_DIGITS
    ensures x >= 10_000_000_000_000 * Pow10(shift)
  {
    hide NatText, Pow10;
    PrintLimit();
    PrintedLength(x, PRINT_DIGITS - 1 + shift);
    Pow10Add(PRINT_DIGITS - 1, shift);
    Pow10Add(PRINT_DIGITS - 1, 1);
    TenIsTen();
  }

  lemma TenIsTen()
    ensures Pow10(1) == 10
  {
  }

  lemma RoundedBelow(x: nat, unit: nat, q: nat)
    requires unit > 0 && x < q * unit
    ensures Rounded(x, unit) <= q
  {
    if x / unit >= q { ScaleUp(q, x / unit, unit); }
  }

  /** The rounded mantissa has 14 digits, or is 10^14, whose zeros are all stripped but never its 1. */
  lemma MantissaDigits(x: nat, r: nat, shift: nat)
    requires x >= PRINT_LIMIT && shift == |NatText(x)| - PRINT_DIGITS && r == Rounded(x, Pow10(shift))
    requires r >= Pow10(PRINT_DIGITS - 1)
    ensures var m := StripZeros(NatText(r)); 0 < |m| <= 14 && m[0] != '0' && m[|m| - 1] != '0'
  {
    hide Rounded, StripZeros, Pow10, NatText;
    MantissaAtMost(x, shift);
    PrintLimit();
    PrintedLength(r, PRINT_DIGITS);
    NotAllZeros(r);
    if r == PRINT_LIMIT { EndsInZero(r); }
  }

  lemma MantissaAtMost(x: nat, shift: nat)
    requires x >= PRINT_LIMIT && shift == |NatText(x)| - PRINT_DIGITS
    ensures Rounded(x, Pow10(shift)) <= PRINT_LIMIT
  {
    hide Rounded, Pow10, NatText;
    PrintLimit();
    PrintedLength(x, PRINT_DIGITS + shift);
    Pow10Add(PRINT_DIGITS, shift);
    RoundedBelow(x, Pow10(shift), PRINT_LIMIT);
  }

  lemma NotAllZeros(r: nat)
    requires r > 0
    ensures StripZeros(NatText(r)) != []
  {
    ParsePrint(r);
    StripValue(NatText(r));
    assert TextNat([]) == 0;
    hide NatText, StripZeros, Pow10;
  }

  lemma EndsInZero(r: nat)
    requires r == PRINT_LIMIT
    ensures |StripZeros(NatText(r))| <= 14
  {
    hide Pow10, NatText;
    var s := NatText(r);
    PrintLimit();
    Pow10Add(PRINT_DIGITS, 1);
    TenIsTen();
    PrintedLength(r, PRINT_DIGITS + 1);
    LastDigit(r);
  }

  lemma LastDigit(r: nat)
    requires r >= 10 && r % 10 == 0
    ensures NatText(r)[|NatText(r)| - 1] == '0'
  {
  }

  /** Printing and reading back, and adding two texts, are off by less than one unit in the fourteenth digit:
      relatively, by at most 10^-13. */
  lemma PrintError(x: nat)
    ensures x < 100_000_000_000_000 ==> ValueOf(PrintNumber(x)) == x
    ensures 20_000_000_000_000 * Distance(ValueOf(PrintNumber(x)), x) <= x
  {
    if x < PRINT_LIMIT {
      ParsePrint(x);
    } else {
      PrintMeaning(x);
      hide PrintNumber, ValueOf, Pow10, NatText;
    }
  }

  lemma AddTextError(a: NumberText, b: NumberText)
    requires ValidText(a) && ValidText(b)
    ensures var v, w := ValueOf(AddText(a, b)), ValueOf(a) + ValueOf(b);
            && 10_000_000_000_000 * Distance(v, w) <= w
            && (w < 100_000_000_000_000 ==> AddText(a, b) == Plain(NatText(w)))
  {
    hide DoubleOf, PrintNumber, ValueOf, ToNumber, AddText, Distance, NatText, Pow10, Pow2, Exponent, Rounded;
    var x := ToNumber(a) + ToNumber(b);
    AddTextIs(a, b);
    Reading(a);
    Reading(b);
    DoubleError(x);
    PrintError(DoubleOf(x));
    AddTextExact(a, b);
    SumErrors(ValueOf(a), ValueOf(b), ToNumber(a), ToNumber(b), DoubleOf(x), ValueOf(AddText(a, b)));
  }

  lemma AddTextExact(a: NumberText, b: NumberText)
    requires ValidText(a) && ValidText(b)
    ensures var w := ValueOf(a) + ValueOf(b); w < 100_000_000_000_000 ==> AddText(a, b) == Plain(NatText(w))
  {
    hide DoubleOf, PrintNumber, ValueOf, ToNumber, AddText, Distance, NatText;
    var x := ToNumber(a) + ToNumber(b);
    AddTextIs(a, b);
    Reading(a);
    Reading(b);
    DoubleError(x);
    if x < PRINT_LIMIT { PrintPlain(x); }
  }

  lemma AddTextIs(a: NumberText, b: NumberText)
    requires ValidText(a) && ValidText(b)
    ensures AddText(a, b) == PrintNumber(DoubleOf(ToNumber(a) + ToNumber(b)))
  {
  }

  lemma Reading(t: NumberText)
    requires ValidText(t)
    ensures 0x20_0000_0000_0000 * Distance(ToNumber(t), ValueOf(t)) <= ValueOf(t)
    ensures ValueOf(t) < 0x20_0000_0000_0000 ==> ToNumber(t) == ValueOf(t)
  {
    hide DoubleOf, Distance;
    DoubleError(ValueOf(t));
  }

  lemma DoubleError(x: nat)
    ensures 0x20_0000_0000_0000 * Distance(DoubleOf(x), x) <= x
    ensures x < 0x20_0000_0000_0000 ==> DoubleOf(x) == x
  {
    hide DoubleOf, Distance;
    DoubleMeaning(x);
  }

  /** Two readings, a sum and a printing, each off by its own relative error. */
  lemma SumErrors(w1: nat, w2: nat, x1: nat, x2: nat, d: nat, v: nat)
    requires 0x20_0000_0000_0000 * Distance(x1, w1) <= w1 && 0x20_0000_0000_0000 * Distance(x2, w2) <= w2
    requires 0x20_0000_0000_0000 * Distance(d, x1 + x2) <= x1 + x2
    requires 20_000_000_000_000 * Distance(v, d) <= d
    ensures 10_000_000_000_000 * Distance(v, w1 + w2) <= w1 + w2
  {
  }

  lemma PrintPlain(x: nat)
    requires x < PRINT_LIMIT
    ensures PrintNumber(x) == Plain(NatText(x))
  {
  }

  // ----- The script -----

  const PAD := 78

  /** The script's comparison: byte order of the zero-padded texts. */
  predicate PaddedLess(a: string, b: string) {
    LexLess(PadStart(a, PAD), PadStart(b, PAD))
  }

  datatype Fields = Fields(open: string, high: string, low: string, close: string,
                           volume: NumberText, tradeCount: NumberText)

  ghost predicate ValidFields(f: Fields) {
    ValidText(f.volume) && ValidText(f.tradeCount)
  }

  /** The hash after one run of the script on a key holding `f` (None: the key does not exist). */
  function Scripted(f: Option<Fields>, price: string, volume: string): (g: Fields)
    requires Canonical(volume) && (f.Some? ==> ValidFields(f.value))
    ensures ValidFields(g)
  {
    if f.None? then Fields(price, price, price, price, Plain(volume), Plain("1"))
    else
      var h := f.value;
      Fields(h.open,
             if PaddedLess(h.high, price) then price else h.high,
             if PaddedLess(price, h.low) then price else h.low,
             price,
             AddText(h.volume, Plain(volume)),
             AddText(h.tradeCount, Plain("1")))
  }

  class RedisCandles {
    var hash: map<Key, Fields>

    ghost predicate Valid()
      reads this
    {
      forall k :: k in hash ==> ValidFields(hash[k])
    }

    constructor ()
      ensures Valid() && hash == map[]
    {
      hash := map[];
    }

    /** CANDLE_UPSERT_LUA, command by command; the reply is the updated candle. */
    method Upsert(key: Key, price: string, volume: string) returns (reply: Fields)
      requires Valid() && Canonical(volume)
      modifies this
      ensures Valid()
      ensures reply == Scripted(Get(old(hash), key), price, volume)
      ensures hash == old(hash)[key := reply]
    {
      if key !in hash {
        reply := Fields(price, price, price, price, Plain(volume), Plain("1"));
        hash := hash[key := reply];
      } else {
        reply := Update(key, price, volume);
      }
    }

    method Update(key: Key, price: string, volume: string) returns (reply: Fields)
      requires Valid() && Canonical(volume) && key in hash
      modifies this
      ensures Valid()
      ensures reply == Scripted(Some(old(hash[key])), price, volume)
      ensures hash == old(hash)[key := reply]
    {
      hide AddText, PaddedLess;
      var high, low, vol, cnt := hash[key].high, hash[key].low, hash[key].volume, hash[key].tradeCount;
      if PaddedLess(high, price) {
        hash := hash[key := hash[key].(high := price)];
        high := price;
      }
      if PaddedLess(price, low) {
        hash := hash[key := hash[key].(low := price)];
        low := price;
      }
      hash := hash[key := hash[key].(close := price)];
      var newVol, newCnt := AddText(vol, Plain(volume)), AddText(cnt, Plain("1"));
      hash := hash[key := hash[key].(volume := newVol, tradeCount := newCnt)];
      reply := Fields(hash[key].open, high, low, price, newVol, newCnt);
    }
  }

  // ----- Padded text order -----

  ghost predicate OrderAgrees(a: string, b: string)
    requires AllDigits(a) && AllDigits(b)
  {
    PaddedLess(a, b) <==> TextNat(a) < TextNat(b)
  }

  lemma PaddedOrder(a: string, b: string)
    requires AllDigits(a) && AllDigits(b) && |a| <= PAD && |b| <= PAD
    ensures OrderAgrees(a, b)
  {
    EqualLengthOrder(PadStart(a, PAD), PadStart(b, PAD));
    PadValue(a, PAD);
    PadValue(b, PAD);
  }

  function Nines(k: nat): (s: string)
    ensures |s| == k && AllDigits(s) && forall i :: 0 <= i < k ==> s[i] == '9'
  {
    seq(k, i => '9')
  }

  /** The smallest number of 79 digits, which the padding does not reach. */
  const TOO_LONG: string := "1" + Zeros(PAD)

  lemma TooLongBreaksOrder()
    ensures Canonical(Nines(PAD)) && Canonical(TOO_LONG) && |TOO_LONG| == PAD + 1
    ensures TextNat(Nines(PAD)) < TextNat(TOO_LONG)
    ensures !PaddedLess(Nines(PAD), TOO_LONG)
  {
    TextBound(Nines(PAD));
    LeadingDigit(TOO_LONG);
    LexAt(Nines(PAD), TOO_LONG, 0);
  }

  /** The padded comparison is numeric order for all texts of at most d digits
      if and only if d is at most the padding width. */
  lemma OrderAgreesUpTo(d: nat)
    ensures (forall a: string, b: string ::
               Canonical(a) && Canonical(b) && |a| <= d && |b| <= d ==> OrderAgrees(a, b))
            <==> d <= 78
  {
    if d <= PAD {
      forall a: string, b: string | Canonical(a) && Canonical(b) && |a| <= d && |b| <= d
        ensures OrderAgrees(a, b)
      {
        PaddedOrder(a, b);
      }
    } else {
      TooLongBreaksOrder();
      assert !OrderAgrees(Nines(PAD), TOO_LONG);
    }
  }

  // ----- Refinement of the Postgres row -----

  /** The hash of one key after the given trades, each run once. */
  function Replay(es: seq<Swap>): (f: Option<Fields>)
    ensures f.None? <==> es == []
    ensures f.Some? ==> ValidFields(f.value)
  {
    if es == [] then None
    else Some(Scripted(Replay(es[..|es| - 1]), NatText(es[|es| - 1].price), NatText(es[|es| - 1].volume)))
  }

  predicate PricesFit(es: seq<Swap>) {
    forall i :: 0 <= i < |es| ==> |NatText(es[i].price)| <= PAD
  }

  ghost predicate SamePrices(f: Fields, c: Candle) {
    && f.open == NatText(c.open) && f.high == NatText(c.high)
    && f.low == NatText(c.low) && f.close == NatText(c.close)
  }

  lemma ComparePrinted(x: nat, y: nat)
    requires |NatText(x)| <= PAD && |NatText(y)| <= PAD
    ensures PaddedLess(NatText(x), NatText(y)) <==> x < y
  {
    PaddedOrder(NatText(x), NatText(y));
    ParsePrint(x);
    ParsePrint(y);
  }

  lemma {:induction false} PricesAgree(es: seq<Swap>)
    requires es != [] && PricesFit(es)
    ensures SamePrices(Replay(es).value, Digest(es).value)
    ensures |Replay(es).value.high| <= PAD && |Replay(es).value.low| <= PAD
  {
    var front, e := es[..|es| - 1], es[|es| - 1];
    if front != [] {
      PricesAgree(front);
      var c := Digest(front).value;
      ComparePrinted(c.high, e.price);
      ComparePrinted(e.price, c.low);
    }
  }

  /** What the sum text of naturals `total`, formed by at least one addition, looks like. */
  ghost predicate SumText(t: NumberText, total: nat)
    requires ValidText(t)
  {
    if total < PRINT_LIMIT then t == Plain(NatText(total))
    else t.Sci? && ToNumber(t) >= PRINT_LIMIT
  }

  /** Reading a text and adding: exact below the limit, never below it otherwise. */
  lemma ReadPlain(x: nat)
    ensures var y := ToNumber(Plain(NatText(x)));
            if x < PRINT_LIMIT then y == x else y >= PRINT_LIMIT
  {
    ParsePrint(x);
    DoubleFacts(x);
  }

  lemma PrintSum(a: nat, b: nat, total: nat)
    requires a + b >= PRINT_LIMIT || a + b == total
    requires a + b >= PRINT_LIMIT <==> total >= PRINT_LIMIT
    ensures SumText(PrintNumber(DoubleOf(a + b)), total)
  {
    DoubleFacts(a + b);
    if total >= PRINT_LIMIT {
      ReadBackLarge(DoubleOf(a + b));
    }
  }

  lemma AddTextMeaning(t: NumberText, total: nat, x: nat)
    requires ValidText(t)
    requires t == Plain(NatText(total)) || SumText(t, total)
    ensures SumText(AddText(t, Plain(NatText(x))), total + x)
  {
    hide DoubleOf, PrintNumber, ToNumber, NatText;
    ReadPlain(total);
    ReadPlain(x);
    PrintSum(ToNumber(t), ToNumber(Plain(NatText(x))), total + x);
  }

  lemma OneText()
    ensures "1" == NatText(1)
  {
  }

  ghost predicate TotalsMatch(volume: NumberText, tradeCount: NumberText, c: Candle)
    requires ValidText(volume) && ValidText(tradeCount)
  {
    if c.count == 1 then volume == Plain(NatText(c.volume)) && tradeCount == Plain(NatText(1))
    else SumText(volume, c.volume) && SumText(tradeCount, c.count)
  }

  lemma TotalsStep(volume: NumberText, tradeCount: NumberText, c: Candle, e: Swap)
    requires ValidText(volume) && ValidText(tradeCount)
    requires c.count > 0 && TotalsMatch(volume, tradeCount, c)
    ensures TotalsMatch(AddText(volume, Plain(NatText(e.volume))), AddText(tradeCount, Plain("1")), Combine(c, One(e)))
  {
    hide AddText, NatText, SumText, ValidText;
    OneText();
    AddTextMeaning(volume, c.volume, e.volume);
    AddTextMeaning(tradeCount, c.count, 1);
  }

  lemma {:induction false} TotalsText(es: seq<Swap>)
    requires es != []
    ensures var f, c := Replay(es).value, Digest(es).value;
            c.count == |es| && TotalsMatch(f.volume, f.tradeCount, c)
  {
    var front, e := es[..|es| - 1], es[|es| - 1];
    if front == [] {
      OneText();
    } else {
      TotalsText(front);
      TotalsStep(Replay(front).value.volume, Replay(front).value.tradeCount, Digest(front).value, e);
    }
  }

  function Power(b: nat, k: nat): (p: nat)
    ensures b > 0 ==> p > 0
  {
    if k == 0 then 1 else b * Power(b, k - 1)
  }

  lemma {:induction false} PowerOrder(a: nat, b: nat, k: nat)
    requires a <= b
    ensures Power(a, k) <= Power(b, k)
  {
    if k > 0 {
      PowerOrder(a, b, k - 1);
      ScaleUp(Power(a, k - 1), Power(b, k - 1), a);
      ScaleUp(a, b, Power(b, k - 1));
    }
  }

  const ACCURACY: nat := 10_000_000_000_000  // 10^13

  /** How far the hash's volume can drift: after n trades it is the row's times a factor between
      (1 - 10^-13)^(n - 1) and (1 + 10^-13)^(n - 1). */
  lemma {:induction false} VolumeDrift(es: seq<Swap>)
    requires es != []
    ensures var v, total, n := ValueOf(Replay(es).value.volume), Digest(es).value.volume, |es| - 1;
            && Power(ACCURACY, n) * v <= Power(ACCURACY + 1, n) * total
            && Power(ACCURACY, n) * v >= Power(ACCURACY - 1, n) * total
  {
    hide AddText, ValueOf, PaddedLess, NatText, Power;
    var front, e := es[..|es| - 1], es[|es| - 1];
    PlainValue(e.volume);
    if front == [] {
      PowerZero();
    } else {
      VolumeDrift(front);
      var t := Replay(front).value.volume;
      AddTextError(t, Plain(NatText(e.volume)));
      DriftStep(ValueOf(t), Digest(front).value.volume, e.volume,
                ValueOf(AddText(t, Plain(NatText(e.volume)))), |front| - 1);
    }
  }

  lemma PowerZero()
    ensures Power(ACCURACY, 0) == Power(ACCURACY + 1, 0) == Power(ACCURACY - 1, 0) == 1
  {
  }

  lemma PlainValue(x: nat)
    ensures ValidText(Plain(NatText(x))) && ValueOf(Plain(NatText(x))) == x
  {
    ParsePrint(x);
  }

  lemma DriftStep(v: nat, total: nat, x: nat, u: nat, n: nat)
    requires Power(ACCURACY, n) * v <= Power(ACCURACY + 1, n) * total
    requires Power(ACCURACY, n) * v >= Power(ACCURACY - 1, n) * total
    requires ACCURACY * Distance(u, v + x) <= v + x
    ensures Power(ACCURACY, n + 1) * u <= Power(ACCURACY + 1, n + 1) * (total + x)
    ensures Power(ACCURACY, n + 1) * u >= Power(ACCURACY - 1, n + 1) * (total + x)
  {
    var b, a, c := Power(ACCURACY, n), Power(ACCURACY + 1, n), Power(ACCURACY - 1, n);
    PowerOrder(ACCURACY, ACCURACY + 1, n);
    PowerOrder(ACCURACY - 1, ACCURACY, n);
    DriftUp(ACCURACY, ACCURACY + 1, b, a, v, total, x, u);
    DriftDown(ACCURACY, ACCURACY - 1, b, c, v, total, x, u);
  }

  /** A bound on the old total and one on the last addition, multiplied. */
  lemma DriftUp(g: nat, h: nat, b: nat, a: nat, v: nat, total: nat, x: nat, u: nat)
    requires b * v <= a * total && b <= a && g * u <= h * (v + x)
    ensures g * b * u <= h * a * (total + x)
  {
    var p, q := b * (v + x), a * (total + x);
    Distribute(b, v, x);
    Distribute(a, total, x);
    ScaleUp(b, a, x);
    assert p <= q;
    ScaleUp(g * u, h * (v + x), b);
    Commute(g, b, u);
    Commute(h, b, v + x);
    ScaleUp(p, q, h);
    Commute(h, a, total + x);
  }

  lemma DriftDown(g: nat, h: nat, b: nat, c: nat, v: nat, total: nat, x: nat, u: nat)
    requires b * v >= c * total && c <= b && g * u >= h * (v + x)
    ensures g * b * u >= h * c * (total + x)
  {
    var p, q := b * (v + x), c * (total + x);
    Distribute(b, v, x);
    Distribute(c, total, x);
    ScaleUp(c, b, x);
    assert q <= p;
    ScaleUp(h * (v + x), g * u, b);
    Commute(g, b, u);
    Commute(h, b, v + x);
    ScaleUp(q, p, h);
    Commute(h, c, total + x);
  }

  lemma Distribute(b: nat, v: nat, x: nat)
    ensures b * (v + x) == b * v + b * x
  {
  }

  lemma Commute(g: nat, b: nat, u: nat)
    ensures g * u * b == g * b * u == b * u * g
  {
  }

  /** Refinement theorem. When each trade runs once and prices have at most 78 digits, the
      hash holds exactly the row's open, high, low and close; its count is the row's while
      that is below 10^14; its volume is the row's exactly when the candle has a single
      trade or the running total is below 10^14. */
  lemma HashRefinesRow(es: seq<Swap>)
    requires es != [] && PricesFit(es)
    ensures var f, c := Replay(es).value, Digest(es).value;
            && SamePrices(f, c)
            && (f.tradeCount == Plain(NatText(c.count)) <==> |es| < PRINT_LIMIT)
            && (f.volume == Plain(NatText(c.volume)) <==> |es| == 1 || c.volume < PRINT_LIMIT)
  {
    PricesAgree(es);
    TotalsText(es);
    OneText();
  }

  /** Beyond 78 digits the refinement fails: the hash keeps a high that is too small. */
  lemma LongPriceBreaksHigh()
    ensures var low, high := TextNat(Nines(PAD)), TextNat(TOO_LONG);
            var es := [Swap(Some("t"), low, 0, 0), Swap(Some("t"), high, 0, 0)];
            Digest(es).value.high == high && Replay(es).value.high == NatText(low) && low < high
  {
    TooLongBreaksOrder();
    PrintParse(Nines(PAD));
    PrintParse(TOO_LONG);
    var a, b := Swap(Some("t"), TextNat(Nines(PAD)), 0, 0), Swap(Some("t"), TextNat(TOO_LONG), 0, 0);
    var es := [a, b];
    assert es[..1] == [a] && [a][..0] == [];
    assert Digest([a]).value.high == a.price;
    assert Replay([a]).value.high == NatText(a.price);
  }
}
