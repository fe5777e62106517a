/** The candle processor: one swap fanned out to five resolutions and written to
    both stores, and the agreement of the two stores over a whole stream. */
module CandleProcessor {
  import opened Base
  import opened Text
  import opened Candles
  import opened CandleCache

  predicate DistinctKeys(batch: seq<(Key, Candle)>) {
    forall i, j :: 0 <= i < j < |batch| ==> batch[i].0 != batch[j].0
  }

  class CandleTable {
    var rows: Table

    constructor ()
      ensures rows == map[]
    {
      rows := map[];
    }

    /** The multi-row upsert statement. Postgres refuses a statement that meets the same
        conflict target twice, and then changes nothing. */
    method UpsertBatch(batch: seq<(Key, Candle)>) returns (ok: bool)
      modifies this
      ensures ok <==> DistinctKeys(batch)
      ensures rows == if ok then Upserts(old(rows), batch) else old(rows)
    {
      if |batch| == 0 { return true; }
      if !DistinctKeys(batch) { return false; }
      for i := 0 to |batch|
        invariant rows == Upserts(old(rows), batch[..i])
      {
        rows := Upsert(rows, batch[i].0, batch[i].1);
        assert batch[..i + 1][..i] == batch[..i];
      }
      assert batch[..|batch|] == batch;
      ok := true;
    }
  }

  /** The hash after the script has run for the given resolutions of one swap. */
  function CacheSwap(h: map<Key, Fields>, e: Swap, rs: seq<Resolution>): (g: map<Key, Fields>)
    requires Priced(e) && forall k :: k in h ==> ValidFields(h[k])
    ensures forall k :: k in g ==> ValidFields(g[k])
  {
    if rs == [] then h
    else
      var g := CacheSwap(h, e, rs[..|rs| - 1]);
      var k := KeyOf(e, rs[|rs| - 1]);
      g[k := Scripted(Get(g, k), NatText(e.price), NatText(e.volume))]
  }

  lemma RowKeysDistinct(e: Swap, rs: seq<Resolution>)
    requires Priced(e)
    requires forall i, j :: 0 <= i < j < |rs| ==> rs[i] != rs[j]
    ensures |RowsFor(e, rs)| == |rs|
    ensures forall i :: 0 <= i < |rs| ==> RowsFor(e, rs)[i].0 == KeyOf(e, rs[i])
    ensures DistinctKeys(RowsFor(e, rs))
  {
    if rs != [] { RowKeysDistinct(e, rs[..|rs| - 1]); }
  }

  /** How the database write of a call ends. */
  datatype Write = Written | Refused | ReplyLost

  /** What a call of handle meets: Redis refuses at resolution number `scripts` (at none from 5 on), and
      the database write ends as `write`. (A script that ran but whose reply was lost stops the call like a
      refusal at the next one, the last like a refused write.) */
  datatype Attempt = Attempt(scripts: nat, write: Write)

  predicate Succeeds(a: Attempt) { a.scripts >= |ALL_RESOLUTIONS| && a.write.Written? }

  /** Does the call write its row of resolution number i in Redis, and its rows in Postgres? */
  predicate Scripts(a: Attempt, i: nat) { i < a.scripts }

  predicate Writes(a: Attempt) { a.scripts >= |ALL_RESOLUTIONS| && !a.write.Refused? }

  datatype Stores = Stores(hash: map<Key, Fields>, rows: Table)

  ghost predicate ValidStores(s: Stores) {
    forall k :: k in s.hash ==> ValidFields(s.hash[k])
  }

  /** Both stores after one call. */
  function Attempted(s: Stores, e: Swap, a: Attempt): (u: Stores)
    requires Priced(e) && ValidStores(s)
    ensures ValidStores(u)
  {
    Stores(CacheSwap(s.hash, e, ALL_RESOLUTIONS[..Min(a.scripts, |ALL_RESOLUTIONS|)]),
           if Writes(a) then ApplySwap(s.rows, e) else s.rows)
  }

  /** Both stores after any number of calls for the same swap. */
  function AttemptedAll(s: Stores, e: Swap, attempts: seq<Attempt>): (u: Stores)
    requires Priced(e) && ValidStores(s)
    ensures ValidStores(u)
  {
    if attempts == [] then s
    else Attempted(AttemptedAll(s, e, attempts[..|attempts| - 1]), e, attempts[|attempts| - 1])
  }

  class Processor {
    const cache: RedisCandles
    const table: CandleTable

    constructor (cache: RedisCandles, table: CandleTable)
      ensures this.cache == cache && this.table == table
    {
      this.cache, this.table := cache, table;
    }

    /** One call of handle. The call throws unless its attempt succeeds. */
    method Handle(e: Swap, a: Attempt) returns (ok: bool)
      requires cache.Valid()
      modifies cache, table
      ensures cache.Valid()
      ensures !Priced(e) ==> ok && cache.hash == old(cache.hash) && table.rows == old(table.rows)
      ensures Priced(e) ==> (ok <==> Succeeds(a))
      ensures Priced(e) ==> Stores(cache.hash, table.rows) == Attempted(Stores(old(cache.hash), old(table.rows)), e, a)
    {
      hide KeyOf, Scripted;
      if !Priced(e) { return true; }
      var candles: seq<(Key, Candle)> := [];
      for i := 0 to |ALL_RESOLUTIONS|
        invariant cache.Valid() && i <= a.scripts
        invariant candles == RowsFor(e, ALL_RESOLUTIONS[..i])
        invariant cache.hash == CacheSwap(old(cache.hash), e, ALL_RESOLUTIONS[..i])
        invariant table.rows == old(table.rows)
      {
        assert ALL_RESOLUTIONS[..i + 1][..i] == ALL_RESOLUTIONS[..i];
        if i == a.scripts { return false; }
        var key := KeyOf(e, ALL_RESOLUTIONS[i]);
        candles := candles + [(key, One(e))];
        var tip := cache.Upsert(key, NatText(e.price), NatText(e.volume));
      }
      assert ALL_RESOLUTIONS[..|ALL_RESOLUTIONS|] == ALL_RESOLUTIONS;
      if a.write.Refused? { return false; }
      RowKeysDistinct(e, ALL_RESOLUTIONS);
      ok := table.UpsertBatch(candles);
      if a.write.ReplyLost? { ok := false; }
    }
  }

  /** The hash after a stream of swaps, each handled once. */
  function CacheRun(es: seq<Swap>): (h: map<Key, Fields>)
    ensures forall k :: k in h ==> ValidFields(h[k])
  {
    if es == [] then map[]
    else
      var h, e := CacheRun(es[..|es| - 1]), es[|es| - 1];
      if Priced(e) then CacheSwap(h, e, ALL_RESOLUTIONS) else h
  }

  lemma {:induction false} CacheSwapAt(h: map<Key, Fields>, e: Swap, rs: seq<Resolution>, k: Key)
    requires Priced(e) && forall j :: j in h ==> ValidFields(h[j])
    requires forall i, j :: 0 <= i < j < |rs| ==> rs[i] != rs[j]
    ensures Get(CacheSwap(h, e, rs), k)
            == if k.resolution in rs && KeyOf(e, k.resolution) == k
               then Some(Scripted(Get(h, k), NatText(e.price), NatText(e.volume))) else Get(h, k)
  {
    hide Scripted, Bucket, NatText;
    if rs != [] {
      var front := rs[..|rs| - 1];
      CacheSwapAt(h, e, front, k);
      assert forall r :: r in rs <==> r in front || r == rs[|rs| - 1];
      assert rs[|rs| - 1] !in front;
    }
  }

  lemma {:induction false} CacheIsReplay(es: seq<Swap>, k: Key)
    ensures Get(CacheRun(es), k) == if Aligned(k) then Replay(Span(k, es)) else None
  {
    hide Scripted, CacheSwap, NatText, Seconds;
    if es != [] {
      var front, e := es[..|es| - 1], es[|es| - 1];
      CacheIsReplay(front, k);
      if Priced(e) {
        CacheSwapAt(CacheRun(front), e, ALL_RESOLUTIONS, k);
        AllResolutionsListed(k.resolution);
        if Aligned(k) {
          HitIsKey(e, k);
          var w := Span(k, front);
          assert (w + [e])[..|w|] == w;
        }
      }
    }
  }

  lemma {:induction false} WindowKeepsFit(es: seq<Swap>, token: string, lo: nat, hi: nat)
    requires PricesFit(es)
    ensures PricesFit(Window(es, token, lo, hi))
  {
    if es != [] { WindowKeepsFit(es[..|es| - 1], token, lo, hi); }
  }

  /** Both stores hold the same candles after any stream handled once: the same keys, and per key
      the same open, high, low and close; count and volume as text within Lua's exact range. */
  lemma StoresAgree(es: seq<Swap>, k: Key)
    requires PricesFit(es)
    ensures k in CacheRun(es) <==> k in Run(es)
    ensures k in Run(es) ==>
              var f, c := CacheRun(es)[k], Run(es)[k];
              && SamePrices(f, c)
              && (c.count < PRINT_LIMIT <==> f.tradeCount == Plain(NatText(c.count)))
              && (c.count == 1 || c.volume < PRINT_LIMIT <==> f.volume == Plain(NatText(c.volume)))
  {
    hide Run, CacheRun, Replay, Digest, Window, NatText, SamePrices;
    CacheIsReplay(es, k);
    RowIsDigest(es, k);
    RowMeaning(es, k);
    if Aligned(k) && Span(k, es) != [] {
      WindowKeepsFit(es, k.token, k.bucket, k.bucket + Seconds(k.resolution));
      HashRefinesRow(Span(k, es));
    }
  }

  function ScriptCount(attempts: seq<Attempt>, i: nat): nat {
    if attempts == [] then 0
    else ScriptCount(attempts[..|attempts| - 1], i) + if Scripts(attempts[|attempts| - 1], i) then 1 else 0
  }

  function WriteCount(attempts: seq<Attempt>): nat {
    if attempts == [] then 0
    else WriteCount(attempts[..|attempts| - 1]) + if Writes(attempts[|attempts| - 1]) then 1 else 0
  }

  /** The trades a row counts: none if it is missing. */
  function RowCount(t: Table, k: Key): nat {
    if k in t then t[k].count else 0
  }

  /** The hash of the key counts n trades, in exact decimal text. */
  ghost predicate HashCounts(h: map<Key, Fields>, k: Key, n: nat) {
    if n == 0 then k !in h else k in h && h[k].tradeCount == Plain(NatText(n))
  }

  lemma ScriptOnce(h: map<Key, Fields>, e: Swap, scripts: nat, i: nat, n: nat)
    requires Priced(e) && forall k :: k in h ==> ValidFields(h[k])
    requires i < |ALL_RESOLUTIONS| && n + 1 < PRINT_LIMIT && HashCounts(h, KeyOf(e, ALL_RESOLUTIONS[i]), n)
    ensures HashCounts(CacheSwap(h, e, ALL_RESOLUTIONS[..Min(scripts, |ALL_RESOLUTIONS|)]), KeyOf(e, ALL_RESOLUTIONS[i]),
                       if i < scripts then n + 1 else n)
  {
    var rs, r := ALL_RESOLUTIONS[..Min(scripts, |ALL_RESOLUTIONS|)], ALL_RESOLUTIONS[i];
    var k := KeyOf(e, r);
    assert r in rs <==> i < scripts by {
      if i < scripts { assert rs[i] == r; }
    }
    hide Scripted, CacheSwap;
    CacheSwapAt(h, e, rs, k);
    CountScripted(Get(h, k), NatText(e.price), NatText(e.volume), n);
    hide KeyOf, NatText;
  }

  /** One run of the script counts one trade more. */
  lemma CountScripted(f: Option<Fields>, price: string, volume: string, n: nat)
    requires Canonical(volume) && (f.Some? ==> ValidFields(f.value)) && n + 1 < PRINT_LIMIT
    requires if n == 0 then f.None? else f.Some? && f.value.tradeCount == Plain(NatText(n))
    ensures Scripted(f, price, volume).tradeCount == Plain(NatText(n + 1))
  {
    hide AddText, PaddedLess, NatText;
    OneText();
    if n > 0 { AddTextMeaning(f.value.tradeCount, n, 1); }
  }

  /** Retries are counted exactly. After any calls for the same swap, failed or not, the row of its
      resolution number i has been counted once in Redis for every call that got past script i, and once
      in Postgres for every call whose write was applied, whether or not its reply came back. */
  lemma {:induction false} AttemptsCounted(s: Stores, e: Swap, attempts: seq<Attempt>, i: nat, n: nat)
    requires Priced(e) && ValidStores(s) && i < |ALL_RESOLUTIONS|
    requires HashCounts(s.hash, KeyOf(e, ALL_RESOLUTIONS[i]), n) && n + |attempts| < PRINT_LIMIT
    ensures ScriptCount(attempts, i) <= |attempts|
    ensures var u, k := AttemptedAll(s, e, attempts), KeyOf(e, ALL_RESOLUTIONS[i]);
            && HashCounts(u.hash, k, n + ScriptCount(attempts, i))
            && RowCount(u.rows, k) == RowCount(s.rows, k) + WriteCount(attempts)
  {
    hide KeyOf, HashCounts, CacheSwap, ApplySwap;
    if attempts != [] {
      var front, a := attempts[..|attempts| - 1], attempts[|attempts| - 1];
      AttemptsCounted(s, e, front, i, n);
      var u := AttemptedAll(s, e, front);
      ScriptOnce(u.hash, e, a.scripts, i, n + ScriptCount(front, i));
      ApplySwapAt(u.rows, e, KeyOf(e, ALL_RESOLUTIONS[i]));
      SameResolution(e, ALL_RESOLUTIONS[i]);
    }
  }

  lemma SameResolution(e: Swap, r: Resolution)
    requires Priced(e)
    ensures KeyOf(e, r).resolution == r
  {
  }

  /** One failed call and its successful retry: Redis counts the swap twice exactly at the resolutions the
      failed call got past, Postgres exactly when the failed call's write was applied and its reply lost. */
  lemma RetryCountsTwice(s: Stores, e: Swap, failed: Attempt, retry: Attempt, i: nat, n: nat)
    requires Priced(e) && ValidStores(s) && i < |ALL_RESOLUTIONS|
    requires !Succeeds(failed) && Succeeds(retry)
    requires HashCounts(s.hash, KeyOf(e, ALL_RESOLUTIONS[i]), n) && n + 2 < PRINT_LIMIT
    ensures var u, k := AttemptedAll(s, e, [failed, retry]), KeyOf(e, ALL_RESOLUTIONS[i]);
            && HashCounts(u.hash, k, if i < failed.scripts then n + 2 else n + 1)
            && RowCount(u.rows, k) == RowCount(s.rows, k)
                 + if failed.scripts >= |ALL_RESOLUTIONS| && failed.write.ReplyLost? then 2 else 1
  {
    hide KeyOf, HashCounts, AttemptedAll;
    var both := [failed, retry];
    AttemptsCounted(s, e, both, i, n);
    assert both[..1] == [failed] && [failed][..0] == [];
    assert ScriptCount([failed], i) == if Scripts(failed, i) then 1 else 0;
    assert WriteCount([failed]) == if Writes(failed) then 1 else 0;
  }
}
