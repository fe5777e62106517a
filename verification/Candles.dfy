/** OHLCV candles: the SQL upsert, the candle table built from a stream of
    swaps, and the roll-up of fine candles into coarse ones.
    Prices, volumes and timestamps are the nonnegative integers of the events. */
module Candles {
  import opened Base
  import opened Arithmetic
  import opened Sums
  import opened Text

  datatype Resolution = M1 | M15 | H1 | H4 | D1

  const ALL_RESOLUTIONS: seq<Resolution> := [M1, M15, H1, H4, D1]

  function Seconds(r: Resolution): (s: nat)
    ensures s > 0 && s % 60 == 0
  {
    match r
    case M1 => 60
    case M15 => 900
    case H1 => 3600
    case H4 => 14400
    case D1 => 86400
  }

  /** A decoded swap, as far as candles read it; token is None when the pool was unknown. */
  datatype Swap = Swap(token: Option<string>, price: nat, volume: nat, timestamp: nat)

  datatype Candle = Candle(open: nat, high: nat, low: nat, close: nat, volume: nat, count: nat)

  datatype Key = Key(token: string, resolution: Resolution, bucket: nat)

  type Table = map<Key, Candle>

  function Bucket(timestamp: nat, r: Resolution): (b: nat)
    ensures b % Seconds(r) == 0 && b <= timestamp < b + Seconds(r)
  {
    var s := Seconds(r);
    BucketFacts(timestamp, s);
    timestamp / s * s
  }

  lemma BucketFacts(timestamp: nat, s: nat)
    requires s > 0
    ensures (timestamp / s * s) % s == 0
    ensures timestamp / s * s <= timestamp < timestamp / s * s + s
  {
    Quotient(timestamp / s * s, s, timestamp / s, 0);
  }

  /** Aligned multiples of s less than s apart are equal. */
  lemma AlignedApart(a: nat, b: nat, s: nat)
    requires s > 0 && a % s == 0 && b % s == 0
    requires a < b + s && b < a + s
    ensures a == b
  {
    var qa, qb := a / s, b / s;
    if qa < qb {
      MulGap(s, qa, qb);
    } else if qb < qa {
      MulGap(s, qb, qa);
    }
  }

  /** The processor skips swaps without a token (null or empty) or with price 0. */
  predicate Priced(e: Swap) {
    e.token.Some? && e.token.value != "" && e.price != 0
  }

  function KeyOf(e: Swap, r: Resolution): Key
    requires Priced(e)
  {
    Key(Lower(e.token.value), r, Bucket(e.timestamp, r))
  }

  function One(e: Swap): Candle {
    Candle(e.price, e.price, e.price, e.price, e.volume, 1)
  }

  // ON CONFLICT ... DO UPDATE of the candle row.
  function Combine(row: Candle, excluded: Candle): Candle {
    Candle(row.open, Max(row.high, excluded.high), Min(row.low, excluded.low), excluded.close,
           row.volume + excluded.volume, row.count + excluded.count)
  }

  function Upsert(t: Table, k: Key, c: Candle): Table {
    t[k := if k in t then Combine(t[k], c) else c]
  }

  function Upserts(t: Table, batch: seq<(Key, Candle)>): Table {
    if batch == [] then t
    else Upsert(Upserts(t, batch[..|batch| - 1]), batch[|batch| - 1].0, batch[|batch| - 1].1)
  }

  /** The rows one swap contributes to the given resolutions. */
  function RowsFor(e: Swap, rs: seq<Resolution>): seq<(Key, Candle)>
    requires Priced(e)
  {
    if rs == [] then [] else RowsFor(e, rs[..|rs| - 1]) + [(KeyOf(e, rs[|rs| - 1]), One(e))]
  }

  function ApplySwap(t: Table, e: Swap): Table {
    if Priced(e) then Upserts(t, RowsFor(e, ALL_RESOLUTIONS)) else t
  }

  function Run(es: seq<Swap>): Table {
    if es == [] then map[] else ApplySwap(Run(es[..|es| - 1]), es[|es| - 1])
  }

  // ----- What a candle means, independently of how it was built -----

  predicate Hits(e: Swap, token: string, lo: nat, hi: nat) {
    Priced(e) && Lower(e.token.value) == token && lo <= e.timestamp < hi
  }

  /** The priced swaps of a token in the time window [lo, hi), in stream order. */
  function Window(es: seq<Swap>, token: string, lo: nat, hi: nat): (w: seq<Swap>) {
    if es == [] then []
    else
      var w, e := Window(es[..|es| - 1], token, lo, hi), es[|es| - 1];
      if Hits(e, token, lo, hi) then w + [e] else w
  }

  function Volume(es: seq<Swap>): nat {
    if es == [] then 0 else Volume(es[..|es| - 1]) + es[|es| - 1].volume
  }

  ghost predicate IsSummary(c: Candle, es: seq<Swap>) {
    && es != []
    && c.open == es[0].price
    && c.close == es[|es| - 1].price
    && (exists i :: 0 <= i < |es| && c.high == es[i].price)
    && (exists i :: 0 <= i < |es| && c.low == es[i].price)
    && (forall i :: 0 <= i < |es| ==> c.low <= es[i].price <= c.high)
    && c.volume == Volume(es)
    && c.count == |es|
  }

  /** Joins two candles of consecutive spans, either of which may be missing. */
  function Merge(a: Option<Candle>, b: Option<Candle>): Option<Candle> {
    if a.None? then b else if b.None? then a else Some(Combine(a.value, b.value))
  }

  function Digest(es: seq<Swap>): (d: Option<Candle>)
    ensures d.None? <==> es == []
  {
    if es == [] then None else Merge(Digest(es[..|es| - 1]), Some(One(es[|es| - 1])))
  }

  lemma {:induction false} DigestIsSummary(es: seq<Swap>)
    requires es != []
    ensures IsSummary(Digest(es).value, es)
  {
    var front, last := es[..|es| - 1], es[|es| - 1];
    if front != [] {
      DigestIsSummary(front);
      var c := Digest(front).value;
      var i :| 0 <= i < |front| && c.high == front[i].price;
      var j :| 0 <= j < |front| && c.low == front[j].price;
      assert c.high == es[i].price && c.low == es[j].price;
      assert last == es[|es| - 1];
    } else {
      assert Digest(es).value == One(es[0]);
      assert Volume(front) == 0;
    }
  }

  function Span(k: Key, es: seq<Swap>): seq<Swap> {
    Window(es, k.token, k.bucket, k.bucket + Seconds(k.resolution))
  }

  predicate Aligned(k: Key) {
    k.bucket % Seconds(k.resolution) == 0
  }

  lemma HitIsKey(e: Swap, k: Key)
    requires Priced(e) && Aligned(k)
    ensures KeyOf(e, k.resolution) == k
            <==> Hits(e, k.token, k.bucket, k.bucket + Seconds(k.resolution))
  {
    var b := Bucket(e.timestamp, k.resolution);
    if k.bucket <= e.timestamp < k.bucket + Seconds(k.resolution) {
      AlignedApart(b, k.bucket, Seconds(k.resolution));
    }
  }

  /** One swap touches exactly the row of its own bucket at each listed resolution. */
  lemma {:induction false} UpsertsAt(t: Table, e: Swap, rs: seq<Resolution>, k: Key)
    requires Priced(e)
    requires forall i, j :: 0 <= i < j < |rs| ==> rs[i] != rs[j]
    ensures Get(Upserts(t, RowsFor(e, rs)), k)
            == if k.resolution in rs && KeyOf(e, k.resolution) == k then Merge(Get(t, k), Some(One(e))) else Get(t, k)
  {
    if rs != [] {
      var front := rs[..|rs| - 1];
      UpsertsAt(t, e, front, k);
      var rows := RowsFor(e, rs);
      assert rows[..|rows| - 1] == RowsFor(e, front);
      assert forall r :: r in rs <==> r in front || r == rs[|rs| - 1];
      assert rs[|rs| - 1] !in front;
    }
  }

  lemma AllResolutionsListed(r: Resolution)
    ensures r in ALL_RESOLUTIONS
  {
    match r
    case M1 => assert ALL_RESOLUTIONS[0] == r;
    case M15 => assert ALL_RESOLUTIONS[1] == r;
    case H1 => assert ALL_RESOLUTIONS[2] == r;
    case H4 => assert ALL_RESOLUTIONS[3] == r;
    case D1 => assert ALL_RESOLUTIONS[4] == r;
  }

  lemma ApplySwapAt(t: Table, e: Swap, k: Key)
    ensures Get(ApplySwap(t, e), k)
            == if Priced(e) && KeyOf(e, k.resolution) == k then Merge(Get(t, k), Some(One(e))) else Get(t, k)
  {
    if Priced(e) {
      UpsertsAt(t, e, ALL_RESOLUTIONS, k);
      AllResolutionsListed(k.resolution);
    }
  }

  /** Every row is the digest of exactly the swaps in its bucket; no other rows exist. */
  lemma {:induction false} RowIsDigest(es: seq<Swap>, k: Key)
    ensures Get(Run(es), k) == if Aligned(k) then Digest(Span(k, es)) else None
  {
    if es != [] {
      var front, e := es[..|es| - 1], es[|es| - 1];
      RowIsDigest(front, k);
      ApplySwapAt(Run(front), e, k);
      if Aligned(k) && Priced(e) {
        HitIsKey(e, k);
        var w := Span(k, front);
        assert (w + [e])[..|w|] == w;
      }
    }
  }

  lemma RowMeaning(es: seq<Swap>, k: Key)
    ensures k in Run(es) <==> Aligned(k) && Span(k, es) != []
    ensures k in Run(es) ==> IsSummary(Run(es)[k], Span(k, es))
  {
    RowIsDigest(es, k);
    if k in Run(es) { DigestIsSummary(Span(k, es)); }
  }

  /** What one swap does to the table, from its own fields: it counts if it has a token and a price, and then
      in the row of its token at each resolution whose aligned window holds its time, opening the row or
      raising its high, lowering its low, closing it and adding to its volume and count. */
  lemma OneSwap(t: Table, e: Swap, k: Key)
    ensures Get(ApplySwap(t, e), k)
            == if e.token.Some? && e.token.value != "" && e.price > 0 && k.token == Lower(e.token.value)
                  && k.bucket % Seconds(k.resolution) == 0
                  && k.bucket <= e.timestamp < k.bucket + Seconds(k.resolution)
               then Some(if k !in t then Candle(e.price, e.price, e.price, e.price, e.volume, 1)
                         else Candle(t[k].open, if e.price > t[k].high then e.price else t[k].high,
                                     if e.price < t[k].low then e.price else t[k].low,
                                     e.price, t[k].volume + e.volume, t[k].count + 1))
               else Get(t, k)
  {
    hide ApplySwap, Lower, Seconds;
    ApplySwapAt(t, e, k);
    if Priced(e) && Aligned(k) { HitIsKey(e, k); }
  }

  // ----- Roll-up -----

  /** The n fine candles from `start` on, joined from the earliest to the latest. */
  function RollUp(t: Table, token: string, fine: Resolution, start: nat, n: nat): Option<Candle> {
    if n == 0 then None
    else Merge(RollUp(t, token, fine, start, n - 1),
               Get(t, Key(token, fine, start + (n - 1) * Seconds(fine))))
  }

  /** All that does not depend on the order of the trades. */
  function Unordered(c: Option<Candle>): Option<Candle> {
    if c.None? then None else Some(c.value.(open := 0, close := 0))
  }

  predicate InTimeOrder(es: seq<Swap>) {
    forall i, j :: 0 <= i < j < |es| ==> es[i].timestamp <= es[j].timestamp
  }

  lemma MergeAssociative(a: Option<Candle>, b: Option<Candle>, c: Option<Candle>)
    ensures Merge(Merge(a, b), c) == Merge(a, Merge(b, c))
  {
  }

  lemma {:induction false} DigestConcat(a: seq<Swap>, b: seq<Swap>)
    ensures Digest(a + b) == Merge(Digest(a), Digest(b))
  {
    if b == [] {
      assert a + b == a;
    } else {
      var front, last := b[..|b| - 1], b[|b| - 1];
      DigestConcat(a, front);
      assert (a + b)[..|a + b| - 1] == a + front;
      MergeAssociative(Digest(a), Digest(front), Some(One(last)));
    }
  }

  lemma {:induction false} EmptyWindow(es: seq<Swap>, token: string, lo: nat, hi: nat)
    requires forall i :: 0 <= i < |es| ==> es[i].timestamp < lo
    ensures Window(es, token, lo, hi) == []
  {
    if es != [] { EmptyWindow(es[..|es| - 1], token, lo, hi); }
  }

  /** In time order, a window is its first part followed by its second part. */
  lemma {:induction false} SplitOrdered(es: seq<Swap>, token: string, lo: nat, mid: nat, hi: nat)
    requires InTimeOrder(es) && lo <= mid <= hi
    ensures Window(es, token, lo, hi) == Window(es, token, lo, mid) + Window(es, token, mid, hi)
  {
    if es != [] {
      var front, e := es[..|es| - 1], es[|es| - 1];
      SplitOrdered(front, token, lo, mid, hi);
      if Hits(e, token, lo, mid) {
        EmptyWindow(front, token, mid, hi);
      }
    }
  }

  /** Without any order, the halves still carry high, low, volume and count. */
  lemma {:induction false} SplitUnordered(es: seq<Swap>, token: string, lo: nat, mid: nat, hi: nat)
    requires lo <= mid <= hi
    ensures Unordered(Digest(Window(es, token, lo, hi)))
            == Unordered(Merge(Digest(Window(es, token, lo, mid)), Digest(Window(es, token, mid, hi))))
  {
    if es != [] {
      var front, e := es[..|es| - 1], es[|es| - 1];
      SplitUnordered(front, token, lo, mid, hi);
      WindowStep(es, token, lo, hi);
      WindowStep(es, token, lo, mid);
      WindowStep(es, token, mid, hi);
      JoinTrade(Digest(Window(front, token, lo, hi)), Digest(Window(front, token, lo, mid)),
                Digest(Window(front, token, mid, hi)), Some(One(e)));
      assert Hits(e, token, lo, hi) <==> Hits(e, token, lo, mid) || Hits(e, token, mid, hi);
      assert !(Hits(e, token, lo, mid) && Hits(e, token, mid, hi));
      hide Digest, Window, Hits, Merge, Unordered, One;
    }
  }

  /** Whichever half one more trade joins, the whole gains the same. */
  lemma JoinTrade(w: Option<Candle>, a: Option<Candle>, b: Option<Candle>, one: Option<Candle>)
    requires Unordered(w) == Unordered(Merge(a, b))
    ensures Unordered(Merge(w, one)) == Unordered(Merge(Merge(a, one), b)) == Unordered(Merge(a, Merge(b, one)))
  {
  }

  lemma WindowStep(es: seq<Swap>, token: string, lo: nat, hi: nat)
    requires es != []
    ensures var w := Digest(Window(es[..|es| - 1], token, lo, hi)); var e := es[|es| - 1];
            Digest(Window(es, token, lo, hi)) == if Hits(e, token, lo, hi) then Merge(w, Some(One(e))) else w
  {
    var w, e := Window(es[..|es| - 1], token, lo, hi), es[|es| - 1];
    assert (w + [e])[..|w|] == w;
  }

  lemma {:induction false} RollUpWindow(es: seq<Swap>, token: string, fine: Resolution, start: nat, n: nat)
    requires start % Seconds(fine) == 0
    ensures var w := Digest(Window(es, token, start, start + n * Seconds(fine)));
            var rolled := RollUp(Run(es), token, fine, start, n);
            Unordered(rolled) == Unordered(w) && (InTimeOrder(es) ==> rolled == w)
  {
    if n == 0 {
      NoWindow(es, token, start);
    } else {
      RollUpWindow(es, token, fine, start, n - 1);
      RollUpStep(es, token, fine, start, n, Seconds(fine), start + (n - 1) * Seconds(fine));
    }
  }

  lemma RollUpStep(es: seq<Swap>, token: string, fine: Resolution, start: nat, n: nat, s: nat, mid: nat)
    requires n > 0 && s == Seconds(fine) && start % s == 0 && mid == start + (n - 1) * s
    requires var w := Digest(Window(es, token, start, mid));
             var rolled := RollUp(Run(es), token, fine, start, n - 1);
             Unordered(rolled) == Unordered(w) && (InTimeOrder(es) ==> rolled == w)
    ensures start + n * s == mid + s
    ensures var w := Digest(Window(es, token, start, mid + s));
            var rolled := RollUp(Run(es), token, fine, start, n);
            Unordered(rolled) == Unordered(w) && (InTimeOrder(es) ==> rolled == w)
  {
    hide Run, Window, Digest, Merge, Unordered, InTimeOrder, Seconds;
    assert n * s == (n - 1) * s + s;
    AlignedSum(start, n - 1, s);
    RowIsDigest(es, Key(token, fine, mid));
    JoinHalves(es, token, start, mid, mid + s, RollUp(Run(es), token, fine, start, n - 1));
  }

  lemma JoinHalves(es: seq<Swap>, token: string, lo: nat, mid: nat, hi: nat, left: Option<Candle>)
    requires lo <= mid <= hi
    requires var w := Digest(Window(es, token, lo, mid));
             Unordered(left) == Unordered(w) && (InTimeOrder(es) ==> left == w)
    ensures var w := Digest(Window(es, token, lo, hi));
            var joined := Merge(left, Digest(Window(es, token, mid, hi)));
            Unordered(joined) == Unordered(w) && (InTimeOrder(es) ==> joined == w)
  {
    hide Window, Digest, Merge, Unordered, InTimeOrder;
    SplitUnordered(es, token, lo, mid, hi);
    MergeUnordered(left, Digest(Window(es, token, lo, mid)), Digest(Window(es, token, mid, hi)));
    if InTimeOrder(es) {
      SplitOrdered(es, token, lo, mid, hi);
      DigestConcat(Window(es, token, lo, mid), Window(es, token, mid, hi));
    }
  }

  lemma MergeUnordered(a: Option<Candle>, b: Option<Candle>, c: Option<Candle>)
    requires Unordered(a) == Unordered(b)
    ensures Unordered(Merge(a, c)) == Unordered(Merge(b, c))
  {
  }

  lemma {:induction false} NoWindow(es: seq<Swap>, token: string, at: nat)
    ensures Window(es, token, at, at) == []
  {
    if es != [] { NoWindow(es[..|es| - 1], token, at); }
  }

  lemma AlignedSum(start: nat, n: nat, s: nat)
    requires s > 0 && start % s == 0
    ensures (start + n * s) % s == 0
  {
    Quotient(start + n * s, s, start / s + n, 0);
  }

  predicate Nests(fine: Resolution, coarse: Resolution) {
    Seconds(fine) <= Seconds(coarse)
  }

  lemma NestingDivides(fine: Resolution, coarse: Resolution)
    requires Nests(fine, coarse)
    ensures Seconds(coarse) / Seconds(fine) * Seconds(fine) == Seconds(coarse)
  {
  }

  lemma Realign(bucket: nat, s: nat, n: nat)
    requires s > 0 && n * s > 0 && bucket % (n * s) == 0
    ensures bucket % s == 0
  {
    var q := bucket / (n * s);
    assert bucket == s * (q * n) by { MulAssociative(q, n, s); }
    Quotient(bucket, s, q * n, 0);
  }

  /** Roll-up theorem. For any stream, a coarse candle's high, low, volume and count are
      those of the fine candles nested in it; when the trades arrive in time order the
      whole candle, open and close included, is the join of those fine candles. */
  lemma CoarseIsRollUp(es: seq<Swap>, token: string, fine: Resolution, coarse: Resolution, bucket: nat)
    requires Nests(fine, coarse) && bucket % Seconds(coarse) == 0
    ensures var c := Get(Run(es), Key(token, coarse, bucket));
            var rolled := RollUp(Run(es), token, fine, bucket, Seconds(coarse) / Seconds(fine));
            Unordered(c) == Unordered(rolled) && (InTimeOrder(es) ==> c == rolled)
  {
    hide Run, RollUp, Window, Digest, Unordered, InTimeOrder, Seconds;
    var n := Seconds(coarse) / Seconds(fine);
    NestingDivides(fine, coarse);
    Realign(bucket, Seconds(fine), n);
    RowIsDigest(es, Key(token, coarse, bucket));
    RollUpWindow(es, token, fine, bucket, n);
  }

  // ----- Open and close, in any order -----

  lemma {:induction false} EmptyPart(es: seq<Swap>, token: string, lo: nat, hi: nat, lo': nat, hi': nat)
    requires lo <= lo' && hi' <= hi && Window(es, token, lo, hi) == []
    ensures Window(es, token, lo', hi') == []
  {
    if es != [] { EmptyPart(es[..|es| - 1], token, lo, hi, lo', hi'); }
  }

  /** If the first trade of a window lies in a part of it, it is the first of that part; so the last. */
  lemma {:induction false} PartEnds(es: seq<Swap>, token: string, lo: nat, hi: nat, lo': nat, hi': nat)
    requires lo <= lo' && hi' <= hi && Window(es, token, lo, hi) != []
    ensures var w, part := Window(es, token, lo, hi), Window(es, token, lo', hi');
            && (lo' <= w[0].timestamp < hi' ==> part != [] && part[0] == w[0])
            && (lo' <= w[|w| - 1].timestamp < hi' ==> part != [] && part[|part| - 1] == w[|w| - 1])
            && (part != [] ==> forall i :: 0 <= i < |w| ==> Hits(w[i], token, lo, hi))
  {
    var front, e := es[..|es| - 1], es[|es| - 1];
    hide Priced, Lower;
    if Window(front, token, lo, hi) != [] {
      PartEnds(front, token, lo, hi, lo', hi');
    } else {
      EmptyPart(front, token, lo, hi, lo', hi');
    }
    WindowHits(es, token, lo, hi);
  }

  lemma {:induction false} WindowHits(es: seq<Swap>, token: string, lo: nat, hi: nat)
    ensures forall i :: 0 <= i < |Window(es, token, lo, hi)| ==> Hits(Window(es, token, lo, hi)[i], token, lo, hi)
  {
    if es != [] { WindowHits(es[..|es| - 1], token, lo, hi); }
  }

  /** Joining from the first non-empty fine candle on keeps its open. */
  lemma {:induction false} RollUpOpen(es: seq<Swap>, token: string, fine: Resolution, start: nat, n: nat, j: nat)
    requires start % Seconds(fine) == 0 && j < n
    requires Window(es, token, start, start + j * Seconds(fine)) == []
    requires var b := start + j * Seconds(fine); Window(es, token, b, b + Seconds(fine)) != []
    ensures var b := start + j * Seconds(fine);
            var r := RollUp(Run(es), token, fine, start, n);
            r.Some? && r.value.open == Window(es, token, b, b + Seconds(fine))[0].price
  {
    hide Run, Window, Seconds;
    if n == j + 1 {
      RollUpWindow(es, token, fine, start, j);
      FineCandle(es, token, fine, start, j);
    } else {
      RollUpOpen(es, token, fine, start, n - 1, j);
    }
  }

  /** Joining past the last non-empty fine candle keeps its close. */
  lemma {:induction false} RollUpClose(es: seq<Swap>, token: string, fine: Resolution, start: nat, n: nat, j: nat)
    requires start % Seconds(fine) == 0 && j < n
    requires Window(es, token, start + (j + 1) * Seconds(fine), start + n * Seconds(fine)) == []
    requires var b := start + j * Seconds(fine); Window(es, token, b, b + Seconds(fine)) != []
    ensures var b := start + j * Seconds(fine);
            var w, r := Window(es, token, b, b + Seconds(fine)), RollUp(Run(es), token, fine, start, n);
            r.Some? && r.value.close == w[|w| - 1].price
  {
    hide Run, Window, Seconds;
    FineCandle(es, token, fine, start, n - 1);
    if n > j + 1 {
      var s := Seconds(fine);
      ScaledOrder(start, j + 1, n - 1, s);
      ScaledOrder(start, n - 1, n, s);
      EmptyPart(es, token, start + (j + 1) * s, start + n * s, start + (n - 1) * s, start + n * s);
      EmptyPart(es, token, start + (j + 1) * s, start + n * s, start + (j + 1) * s, start + (n - 1) * s);
      RollUpClose(es, token, fine, start, n - 1, j);
    }
  }

  lemma ScaledOrder(start: nat, a: nat, b: nat, s: nat)
    requires a <= b
    ensures start + a * s <= start + b * s
    ensures b == a + 1 ==> start + b * s == start + a * s + s
  {
    if a < b { MulGap(s, a, b); }
  }

  lemma FineCandle(es: seq<Swap>, token: string, fine: Resolution, start: nat, j: nat)
    requires start % Seconds(fine) == 0
    ensures var b := start + j * Seconds(fine); var w := Window(es, token, b, b + Seconds(fine));
            var c := Get(Run(es), Key(token, fine, b));
            && start + (j + 1) * Seconds(fine) == b + Seconds(fine)
            && (c.None? <==> w == [])
            && (w != [] ==> c.value.open == w[0].price && c.value.close == w[|w| - 1].price)
  {
    hide Run, Window, Seconds;
    var b := start + j * Seconds(fine);
    AlignedSum(start, j, Seconds(fine));
    ScaledOrder(start, j, j + 1, Seconds(fine));
    RowIsDigest(es, Key(token, fine, b));
    if Window(es, token, b, b + Seconds(fine)) != [] {
      DigestIsSummary(Window(es, token, b, b + Seconds(fine)));
    }
  }

  /** The trades of the fine candle number i of a coarse one, for fine candles of s seconds. */
  function Fine(es: seq<Swap>, token: string, s: nat, start: nat, i: nat): seq<Swap> {
    Window(es, token, start + i * s, start + i * s + s)
  }

  /** The fine candles i and j of a coarse one are the earliest and the latest with a trade. */
  ghost predicate Outermost(es: seq<Swap>, token: string, s: nat, start: nat, n: nat, i: nat, j: nat) {
    && i <= j < n
    && Window(es, token, start, start + i * s) == [] && Fine(es, token, s, start, i) != []
    && Fine(es, token, s, start, j) != [] && Window(es, token, start + (j + 1) * s, start + n * s) == []
  }

  /** When a coarse candle is the join of its fine ones, exactly, in whatever order trades arrive: if and
      only if the first trade of its span to arrive has the price of the first to arrive in the earliest
      fine candle with a trade, and the last the price of the last in the latest. It is enough that those
      two trades lie in those candles, which time order gives. */
  lemma CoarseEnds(es: seq<Swap>, token: string, fine: Resolution, coarse: Resolution, bucket: nat, i: nat, j: nat)
    requires Nests(fine, coarse) && bucket % Seconds(coarse) == 0
    requires Outermost(es, token, Seconds(fine), bucket, Seconds(coarse) / Seconds(fine), i, j)
    ensures var s, w := Seconds(fine), Window(es, token, bucket, bucket + Seconds(coarse));
            var early, late := Fine(es, token, s, bucket, i), Fine(es, token, s, bucket, j);
            && w != []
            && (Get(Run(es), Key(token, coarse, bucket)) == RollUp(Run(es), token, fine, bucket, Seconds(coarse) / s)
                <==> w[0].price == early[0].price && w[|w| - 1].price == late[|late| - 1].price)
            && (w[0].timestamp < bucket + i * s + s && w[|w| - 1].timestamp >= bucket + j * s ==>
                  w[0] == early[0] && w[|w| - 1] == late[|late| - 1])
  {
    hide Run, Window, Seconds, Digest;
    var s, n := Seconds(fine), Seconds(coarse) / Seconds(fine);
    NestingDivides(fine, coarse);
    Realign(bucket, s, n);
    CoarseIsRollUp(es, token, fine, coarse, bucket);
    RollUpOpen(es, token, fine, bucket, n, i);
    RollUpClose(es, token, fine, bucket, n, j);
    RowIsDigest(es, Key(token, coarse, bucket));
    SpanEnds(es, token, bucket, bucket + n * s, s, n, i, j);
    DigestIsSummary(Window(es, token, bucket, bucket + n * s));
  }

  lemma SpanEnds(es: seq<Swap>, token: string, lo: nat, hi: nat, s: nat, n: nat, i: nat, j: nat)
    requires Outermost(es, token, s, lo, n, i, j) && hi == lo + n * s
    ensures var w, early, late := Window(es, token, lo, hi), Fine(es, token, s, lo, i), Fine(es, token, s, lo, j);
            && w != []
            && (w[0].timestamp < lo + i * s + s ==> w[0] == early[0])
            && (w[|w| - 1].timestamp >= lo + j * s ==> w[|w| - 1] == late[|late| - 1])
  {
    hide Window;
    var w := Window(es, token, lo, hi);
    ScaledOrder(lo, 0, i, s);
    ScaledOrder(lo, i, i + 1, s);
    ScaledOrder(lo, i + 1, n, s);
    ScaledOrder(lo, j, j + 1, s);
    ScaledOrder(lo, j + 1, n, s);
    ScaledOrder(lo, 0, j, s);
    if w == [] {
      EmptyPart(es, token, lo, hi, lo + i * s, lo + i * s + s);
    }
    PartEnds(es, token, lo, hi, lo + i * s, lo + i * s + s);
    PartEnds(es, token, lo, hi, lo + j * s, lo + j * s + s);
    if w[0].timestamp < lo + i * s {
      PartEnds(es, token, lo, hi, lo, lo + i * s);
    }
    if w[|w| - 1].timestamp >= lo + j * s + s {
      PartEnds(es, token, lo, hi, lo + (j + 1) * s, lo + n * s);
    }
  }

  /** Time order is not idle: two trades arriving in reverse. */
  lemma OutOfOrderOpen()
    ensures var es := [Swap(Some("t"), 5, 1, 70), Swap(Some("t"), 7, 1, 10)];
            Get(Run(es), Key("t", M15, 0)) != RollUp(Run(es), "t", M1, 0, 15)
  {
    var late, early := Swap(Some("t"), 5, 1, 70), Swap(Some("t"), 7, 1, 10);
    var es := [late, early];
    assert Lower("t") == "t";
    assert es[..1] == [late];
    OneSwapWindow(late, "t", 0, 900);
    OneSwapWindow(late, "t", 0, 60);
    RowMeaning(es, Key("t", M15, 0));
    RowMeaning(es, Key("t", M1, 0));
    assert Span(Key("t", M15, 0), es) == [late, early];
    assert Span(Key("t", M1, 0), es) == [early];
    RollUpKeepsOpen(Run(es), "t", M1, 0, 15);
  }

  lemma OneSwapWindow(e: Swap, token: string, lo: nat, hi: nat)
    ensures Window([e], token, lo, hi) == if Hits(e, token, lo, hi) then [e] else []
  {
    assert [e][..0] == [];
  }

  lemma {:induction false} RollUpKeepsOpen(t: Table, token: string, fine: Resolution, start: nat, n: nat)
    requires n > 0 && Key(token, fine, start) in t
    ensures var r := RollUp(t, token, fine, start, n);
            r.Some? && r.value.open == t[Key(token, fine, start)].open
  {
    if n > 1 {
      RollUpKeepsOpen(t, token, fine, start, n - 1);
    } else {
      assert RollUp(t, token, fine, start, 0) == None;
    }
  }

  // ----- Conservation across resolutions -----

  ghost function Volumes(t: Table, r: Resolution): map<Key, int> {
    map k | k in t && k.resolution == r :: t[k].volume
  }

  ghost function Counts(t: Table, r: Resolution): map<Key, int> {
    map k | k in t && k.resolution == r :: t[k].count
  }

  function PricedVolume(es: seq<Swap>): nat {
    if es == [] then 0
    else PricedVolume(es[..|es| - 1]) + if Priced(es[|es| - 1]) then es[|es| - 1].volume else 0
  }

  function PricedCount(es: seq<Swap>): nat {
    if es == [] then 0
    else PricedCount(es[..|es| - 1]) + if Priced(es[|es| - 1]) then 1 else 0
  }

  lemma VolumesUpsert(t: Table, k: Key, c: Candle, r: Resolution)
    ensures Volumes(Upsert(t, k, c), r)
            == if k.resolution == r then Volumes(t, r)[k := c.volume + if k in t then t[k].volume else 0] else Volumes(t, r)
    ensures k.resolution == r ==> (if k in Volumes(t, r) then Volumes(t, r)[k] else 0) == if k in t then t[k].volume else 0
  {
  }

  lemma CountsUpsert(t: Table, k: Key, c: Candle, r: Resolution)
    ensures Counts(Upsert(t, k, c), r)
            == if k.resolution == r then Counts(t, r)[k := c.count + if k in t then t[k].count else 0] else Counts(t, r)
    ensures k.resolution == r ==> (if k in Counts(t, r) then Counts(t, r)[k] else 0) == if k in t then t[k].count else 0
  {
  }

  lemma UpsertTotals(t: Table, k: Key, c: Candle, r: Resolution)
    ensures var u := Upsert(t, k, c);
            Sum(Volumes(u, r)) == Sum(Volumes(t, r)) + (if k.resolution == r then c.volume else 0)
            && Sum(Counts(u, r)) == Sum(Counts(t, r)) + if k.resolution == r then c.count else 0
  {
    hide Sum, Upsert, Volumes, Counts;
    VolumesUpsert(t, k, c, r);
    CountsUpsert(t, k, c, r);
    if k.resolution == r {
      SumUpdate(Volumes(t, r), k, c.volume + if k in t then t[k].volume else 0);
      SumUpdate(Counts(t, r), k, c.count + if k in t then t[k].count else 0);
    }
  }

  lemma {:induction false} SwapTotals(t: Table, e: Swap, rs: seq<Resolution>, r: Resolution)
    requires Priced(e)
    requires forall i, j :: 0 <= i < j < |rs| ==> rs[i] != rs[j]
    ensures var u := Upserts(t, RowsFor(e, rs));
            Sum(Volumes(u, r)) == Sum(Volumes(t, r)) + (if r in rs then e.volume else 0)
            && Sum(Counts(u, r)) == Sum(Counts(t, r)) + if r in rs then 1 else 0
  {
    hide Bucket, Volumes, Counts, Sum, Upsert;
    if rs != [] {
      var front, last := rs[..|rs| - 1], rs[|rs| - 1];
      SwapTotals(t, e, front, r);
      var rows := RowsFor(e, rs);
      assert rows[..|rows| - 1] == RowsFor(e, front);
      UpsertTotals(Upserts(t, RowsFor(e, front)), KeyOf(e, last), One(e), r);
      assert r in rs <==> r in front || r == last;
    }
  }

  /** Total volume and trade count are those of the priced swaps, so they agree at all
      five resolutions, whatever the order of the stream. */
  lemma {:induction false} TotalsAgree(es: seq<Swap>, r: Resolution)
    ensures Sum(Volumes(Run(es), r)) == PricedVolume(es)
    ensures Sum(Counts(Run(es), r)) == PricedCount(es)
  {
    if es == [] {
      assert Volumes(map[], r) == map[] && Counts(map[], r) == map[];
    } else {
      var front, e := es[..|es| - 1], es[|es| - 1];
      TotalsAgree(front, r);
      if Priced(e) {
        SwapTotals(Run(front), e, ALL_RESOLUTIONS, r);
        AllResolutionsListed(r);
      }
    }
  }

  /** Handling the same swap again changes the table exactly when the swap is priced:
      the upsert is not idempotent. */
  lemma ReplayChangesTable(t: Table, e: Swap)
    ensures ApplySwap(ApplySwap(t, e), e) == ApplySwap(t, e) <==> !Priced(e)
  {
    if Priced(e) {
      var k := KeyOf(e, M1);
      ApplySwapAt(t, e, k);
      ApplySwapAt(ApplySwap(t, e), e, k);
    }
  }
}
