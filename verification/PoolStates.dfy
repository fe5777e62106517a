/** The trade processor's pool-state buffer: PoolStateUpdated events whose token is not registered yet
    wait in an insertion-ordered map of at most 500 entries, backed up in Redis, and are flushed into
    pool_state once the token is known. */
module PoolStates {
  import opened Base
  import opened Arithmetic
  import opened Text

  const BUFFER_LIMIT := 500

  datatype Update = Update(poolId: string, sqrtPrice: nat, liquidity: nat, block: nat)

  datatype PoolRow = PoolRow(token: string, liquidity: nat, sqrtPrice: nat, updatedBlock: nat)

  /** token_registry by pool id, initial_price_eth by token, and pool_state. */
  datatype Tables = Tables(registry: map<string, string>, initialPrice: map<string, nat>, poolState: map<string, PoolRow>)

  /** The pending map, a JavaScript Map from pool id to event: its values in insertion order (the key
      of each is its pool). */
  type Buffer = seq<Update>

  const TWO_192: nat := 0x1_00000000_00000000_00000000_00000000_00000000_00000000
  const WAD: nat := 1_000_000_000_000_000_000

  function InitialPrice(sqrtPrice: nat): nat
    requires sqrtPrice > 0
  {
    TWO_192 * WAD / (sqrtPrice * sqrtPrice)
  }

  function Pool(e: Update): string { Lower(e.poolId) }

  /** applyPoolState for a registered pool. */
  function Applied(t: Tables, e: Update): Tables
    requires Pool(e) in t.registry
  {
    var p := Pool(e);
    var token := t.registry[p];
    var block := if p in t.poolState then Max(t.poolState[p].updatedBlock, e.block) else e.block;
    Tables(t.registry,
           if e.sqrtPrice > 0 && token !in t.initialPrice then t.initialPrice[token := InitialPrice(e.sqrtPrice)] else t.initialPrice,
           t.poolState[p := PoolRow(token, e.liquidity, e.sqrtPrice, block)])
  }

  function Apply(t: Tables, e: Update): Tables {
    if Pool(e) in t.registry then Applied(t, e) else t
  }

  predicate Distinct(b: Buffer) {
    forall i, j :: 0 <= i < j < |b| ==> Pool(b[i]) != Pool(b[j])
  }

  function AsMap(b: Buffer): map<string, Update> {
    if b == [] then map[] else AsMap(b[..|b| - 1])[Pool(b[|b| - 1]) := b[|b| - 1]]
  }

  /** Map.set: a known key keeps its place. */
  function Put(b: Buffer, e: Update): Buffer {
    if Pool(e) in AsMap(b) then Replace(b, e) else b + [e]
  }

  function Replace(b: Buffer, e: Update): Buffer {
    if b == [] then []
    else Replace(b[..|b| - 1], e) + [if Pool(b[|b| - 1]) == Pool(e) then e else b[|b| - 1]]
  }

  /** A flush applies every buffered event whose pool is registered, in order, and keeps the rest. */
  function FlushTables(t: Tables, b: Buffer): Tables {
    if b == [] then t else Apply(FlushTables(t, b[..|b| - 1]), b[|b| - 1])
  }

  function FlushBuffer(registry: map<string, string>, b: Buffer): Buffer {
    if b == [] then []
    else
      var k := FlushBuffer(registry, b[..|b| - 1]);
      if Pool(b[|b| - 1]) in registry then k else k + [b[|b| - 1]]
  }

  /** Restoring puts every entry of the backup over what the buffer holds by then. */
  function PutAll(b: Buffer, entries: Buffer): Buffer {
    if entries == [] then b else Put(PutAll(b, entries[..|entries| - 1]), entries[|entries| - 1])
  }

  /** A process starts with an empty buffer and handles events before it has read the backup, and again
      before it has put back what it read. */
  datatype Phase = Running | Booting | Loaded(entries: Buffer)

  /** `latest` is the newest update handled per pool, and `evicted` the pools whose newest update was
      dropped from a full buffer. */
  datatype State = State(tables: Tables, buffer: Buffer, backup: map<string, Update>,
                         latest: map<string, Update>, evicted: set<string>, phase: Phase)

  function Flush(s: State): State {
    State(FlushTables(s.tables, s.buffer), FlushBuffer(s.tables.registry, s.buffer),
          s.backup - AsMap(s.buffer).Keys * s.tables.registry.Keys, s.latest, s.evicted, s.phase)
  }

  /** The part of handle after the flush. */
  function Receive(s: State, e: Update): State {
    var p := Pool(e);
    if p in s.tables.registry then
      State(Applied(s.tables, e), s.buffer, s.backup, s.latest[p := e], s.evicted - {p}, s.phase)
    else
      var b := Put(s.buffer, e);
      if |b| <= BUFFER_LIMIT then State(s.tables, b, s.backup[p := e], s.latest[p := e], s.evicted - {p}, s.phase)
      else State(s.tables, b[1..], s.backup[p := e] - {Pool(b[0])}, s.latest[p := e], s.evicted - {p} + {Pool(b[0])}, s.phase)
  }

  function Register(s: State, p: string, token: string): State {
    if p in s.tables.registry then s
    else s.(tables := s.tables.(registry := s.tables.registry[p := token]))
  }

  /** Atomic steps: a token is registered, an update is handled, the timer (or any other event) flushes,
      the process (re)starts, the backup is read, its entries in any order, or cannot be read, and what was
      read is put back. */
  datatype Step =
    | Registered(pool: string, token: string)
    | Handle(e: Update)
    | Timer
    | Boot
    | ReadBackup(entries: Buffer)
    | ReadFails
    | PutBack

  function Exec(s: State, t: Step): State {
    match t
    case Registered(p, token) => Register(s, p, token)
    case Handle(e) => Receive(Flush(s), e)
    case Timer => Flush(s)
    case Boot => s.(buffer := [], phase := Booting)
    case ReadBackup(entries) =>
      if s.phase.Booting? && Distinct(entries) && AsMap(entries) == s.backup then s.(phase := Loaded(entries)) else s
    case ReadFails => if s.phase.Booting? then s.(phase := Running) else s
    case PutBack => if s.phase.Loaded? then s.(buffer := PutAll(s.buffer, s.phase.entries), phase := Running) else s
  }

  function Run(s: State, ts: seq<Step>): State {
    if ts == [] then s else Exec(Run(s, ts[..|ts| - 1]), ts[|ts| - 1])
  }

  ghost predicate Start(s: State) {
    && s.buffer == [] && s.backup == map[] && s.latest == map[] && s.evicted == {} && s.tables.poolState == map[]
    && s.phase.Running?
  }

  // ----- The processor -----

  class Processor {
    var tables: Tables
    var pendingPoolState: Buffer
    var backup: map<string, Update>

    constructor (t: Tables, backup: map<string, Update>)
      ensures tables == t && pendingPoolState == [] && this.backup == backup
    {
      tables, pendingPoolState, this.backup := t, [], backup;
    }

    /** The loop of start that puts back what was read from the backup. */
    method Restore(entries: Buffer)
      modifies this`pendingPoolState
      ensures pendingPoolState == PutAll(old(pendingPoolState), entries)
    {
      for i := 0 to |entries|
        invariant pendingPoolState == PutAll(old(pendingPoolState), entries[..i])
      {
        assert entries[..i + 1][..i] == entries[..i];
        pendingPoolState := Put(pendingPoolState, entries[i]);
      }
      assert entries[..|entries|] == entries;
    }

    method ApplyPoolState(e: Update) returns (applied: bool)
      modifies this`tables
      ensures applied <==> Pool(e) in old(tables).registry
      ensures tables == Apply(old(tables), e)
    {
      var p := Pool(e);
      if p !in tables.registry { return false; }
      var token := tables.registry[p];
      var block := if p in tables.poolState then Max(tables.poolState[p].updatedBlock, e.block) else e.block;
      var rows := tables.poolState[p := PoolRow(token, e.liquidity, e.sqrtPrice, block)];
      var prices := tables.initialPrice;
      if e.sqrtPrice > 0 && token !in prices {
        prices := prices[token := InitialPrice(e.sqrtPrice)];
      }
      tables := Tables(tables.registry, prices, rows);
      applied := true;
    }

    /** flushPendingPoolState: the loop deletes the applied entries as it goes. */
    method FlushPending()
      modifies this
      ensures tables == FlushTables(old(tables), old(pendingPoolState))
      ensures pendingPoolState == FlushBuffer(old(tables).registry, old(pendingPoolState))
      ensures backup == old(backup) - AsMap(old(pendingPoolState)).Keys * old(tables).registry.Keys
    {
      hide Apply, Pool, Midway;
      var entries := pendingPoolState;
      var kept: Buffer := [];
      MidwayStart(tables, entries, backup);
      for i := 0 to |entries|
        invariant Midway(old(tables), entries, old(backup), i, tables, kept, backup)
        invariant pendingPoolState == kept + entries[i..]
      {
        var e := entries[i];
        assert entries[i..] == [e] + entries[i + 1..];
        MidwayNext(old(tables), entries, old(backup), i, tables, kept, backup);
        var applied := ApplyPoolState(e);
        if applied {
          pendingPoolState := kept + entries[i + 1..];
          backup := backup - {Pool(e)};
        } else {
          Regroup(kept, e, entries[i + 1..]);
          kept := kept + [e];
        }
      }
      MidwayEnd(old(tables), entries, old(backup), tables, kept, backup);
    }

    /** handle of a PoolStateUpdated event. */
    method HandleUpdate(e: Update, ghost latest: map<string, Update>, ghost evicted: set<string>, ghost phase: Phase)
      modifies this
      ensures var after := Receive(Flush(State(old(tables), old(pendingPoolState), old(backup), latest, evicted, phase)), e);
              tables == after.tables && pendingPoolState == after.buffer && backup == after.backup
    {
      FlushRegistry(tables, pendingPoolState);
      hide Put, FlushTables, FlushBuffer, Pool;
      FlushPending();
      var applied := ApplyPoolState(e);
      if !applied {
        pendingPoolState := Put(pendingPoolState, e);
        backup := backup[Pool(e) := e];
        if |pendingPoolState| > BUFFER_LIMIT {
          var oldest := Pool(pendingPoolState[0]);
          pendingPoolState := pendingPoolState[1..];
          backup := backup - {oldest};
        }
      }
    }
  }

  lemma Next(t: Tables, b: Buffer, e: Update)
    ensures AsMap(b + [e]) == AsMap(b)[Pool(e) := e]
    ensures FlushTables(t, b + [e]) == Apply(FlushTables(t, b), e)
    ensures FlushBuffer(t.registry, b + [e])
            == if Pool(e) in t.registry then FlushBuffer(t.registry, b) else FlushBuffer(t.registry, b) + [e]
    ensures Replace(b + [e], e) == Replace(b, e) + [e]
  {
    assert (b + [e])[..|b|] == b;
  }

  /** The flush loop after its first i entries. */
  ghost predicate Midway(t: Tables, b: Buffer, m: map<string, Update>, i: nat, u: Tables, kept: Buffer, n: map<string, Update>) {
    && i <= |b| && u == FlushTables(t, b[..i]) && u.registry == t.registry
    && kept == FlushBuffer(t.registry, b[..i])
    && n == m - AsMap(b[..i]).Keys * t.registry.Keys
  }

  lemma MidwayStart(t: Tables, b: Buffer, m: map<string, Update>)
    ensures Midway(t, b, m, 0, t, [], m)
  {
  }

  lemma MidwayNext(t: Tables, b: Buffer, m: map<string, Update>, i: nat, u: Tables, kept: Buffer, n: map<string, Update>)
    requires Midway(t, b, m, i, u, kept, n) && i < |b|
    ensures u.registry == t.registry
    ensures if Pool(b[i]) in t.registry then Midway(t, b, m, i + 1, Apply(u, b[i]), kept, n - {Pool(b[i])})
            else Midway(t, b, m, i + 1, Apply(u, b[i]), kept + [b[i]], n)
  {
    hide AsMap, Apply, Pool, FlushTables, FlushBuffer, Replace;
    Next(t, b[..i], b[i]);
    assert b[..i + 1] == b[..i] + [b[i]];
    RegistryKept(u, b[i]);
    BackupStep(m, AsMap(b[..i]).Keys, t.registry.Keys, Pool(b[i]));
    assert AsMap(b[..i + 1]).Keys == AsMap(b[..i]).Keys + {Pool(b[i])};
  }

  lemma MidwayEnd(t: Tables, b: Buffer, m: map<string, Update>, u: Tables, kept: Buffer, n: map<string, Update>)
    requires Midway(t, b, m, |b|, u, kept, n)
    ensures u == FlushTables(t, b) && kept == FlushBuffer(t.registry, b) && n == m - AsMap(b).Keys * t.registry.Keys
  {
    assert b[..|b|] == b;
  }

  lemma Regroup(kept: Buffer, e: Update, rest: Buffer)
    ensures kept + ([e] + rest) == kept + [e] + rest
  {
  }

  lemma BackupStep(m: map<string, Update>, a: set<string>, r: set<string>, p: string)
    ensures m - (a + {p}) * r == if p in r then m - a * r - {p} else m - a * r
  {
  }

  lemma RegistryKept(t: Tables, e: Update)
    ensures Apply(t, e).registry == t.registry
  {
  }

  lemma {:induction false} FlushRegistry(t: Tables, b: Buffer)
    ensures FlushTables(t, b).registry == t.registry
  {
    if b != [] { FlushRegistry(t, b[..|b| - 1]); }
  }

  // ----- What is kept -----

  /** Is the row of this pool the one this update wrote? */
  predicate Shows(t: Tables, p: string, e: Update) {
    p in t.poolState && t.poolState[p].liquidity == e.liquidity && t.poolState[p].sqrtPrice == e.sqrtPrice
  }

  /** The newest update of every pool is buffered, shown in pool_state, or evicted from a full buffer;
      what is buffered is the newest; and the backup mirrors the buffer. */
  ghost predicate Kept(s: State) {
    && s.phase.Running?
    && Distinct(s.buffer) && |s.buffer| <= BUFFER_LIMIT
    && s.backup == AsMap(s.buffer)
    && (forall p :: p in s.backup ==> Get(s.latest, p) == Some(s.backup[p]) && p !in s.evicted)
    && (forall p :: p in s.latest ==> p in s.backup || p in s.evicted || Shows(s.tables, p, s.latest[p]))
  }

  lemma {:induction false} MapMembers(b: Buffer)
    ensures forall p :: p in AsMap(b) ==> exists i :: 0 <= i < |b| && Pool(b[i]) == p
    ensures forall i :: 0 <= i < |b| ==> Pool(b[i]) in AsMap(b)
    ensures Distinct(b) ==> |AsMap(b)| == |b|
  {
    hide Pool;
    if b != [] { MapMembers(b[..|b| - 1]); }
  }

  lemma {:induction false} ReplaceMeaning(b: Buffer, e: Update)
    ensures |Replace(b, e)| == |b|
    ensures forall i :: 0 <= i < |b| ==> Pool(Replace(b, e)[i]) == Pool(b[i])
    ensures AsMap(Replace(b, e)) == if Pool(e) in AsMap(b) then AsMap(b)[Pool(e) := e] else AsMap(b)
  {
    hide Pool;
    if b != [] {
      var front, last := b[..|b| - 1], b[|b| - 1];
      ReplaceMeaning(front, e);
      var x := if Pool(last) == Pool(e) then e else last;
      assert (Replace(front, e) + [x])[..|front|] == Replace(front, e);
    }
  }

  lemma PutMeaning(b: Buffer, e: Update)
    requires Distinct(b)
    ensures Distinct(Put(b, e)) && AsMap(Put(b, e)) == AsMap(b)[Pool(e) := e]
    ensures |b| <= |Put(b, e)| <= |b| + 1
    ensures |Put(b, e)| > |b| ==> Put(b, e) == b + [e] && Pool(e) !in AsMap(b)
  {
    hide Pool, Replace;
    MapMembers(b);
    ReplaceMeaning(b, e);
    assert (b + [e])[..|b|] == b;
  }

  lemma {:induction false} DropOldest(b: Buffer)
    requires Distinct(b) && b != []
    ensures Distinct(b[1..]) && AsMap(b[1..]) == AsMap(b) - {Pool(b[0])}
  {
    hide Pool;
    if |b| > 1 {
      var front := b[..|b| - 1];
      DropOldest(front);
      assert b[1..][..|b| - 2] == front[1..];
    } else {
      assert b[..0] == [] && b[1..] == [];
    }
  }

  /** The buffer k is what a flush keeps of b. */
  ghost predicate FlushedTo(registry: map<string, string>, b: Buffer, k: Buffer) {
    |k| <= |b| && Distinct(k) && AsMap(k) == AsMap(b) - registry.Keys
  }

  lemma FlushedNext(registry: map<string, string>, b: Buffer, k: Buffer, e: Update)
    requires FlushedTo(registry, b, k) && Pool(e) !in AsMap(b)
    ensures FlushedTo(registry, b + [e], if Pool(e) in registry then k else k + [e])
  {
    var t := Tables(registry, map[], map[]);
    Next(t, b, e);
    Next(t, k, e);
    AppendDistinct(k, e);
    hide Pool, AsMap, Distinct;
    MinusNext(AsMap(b), Pool(e), e, registry.Keys);
  }

  lemma MinusNext(m: map<string, Update>, p: string, e: Update, r: set<string>)
    ensures m[p := e] - r == if p in r then m - r else (m - r)[p := e]
  {
  }

  lemma {:induction false} FlushBufferMeaning(registry: map<string, string>, b: Buffer)
    requires Distinct(b)
    ensures FlushedTo(registry, b, FlushBuffer(registry, b))
  {
    if b != [] {
      var front, last := b[..|b| - 1], b[|b| - 1];
      hide Pool, AsMap, FlushedTo;
      FlushBufferMeaning(registry, front);
      assert b == front + [last];
      NotBefore(b);
      FlushedNext(registry, front, FlushBuffer(registry, front), last);
    }
  }

  lemma NotBefore(b: Buffer)
    requires b != [] && Distinct(b)
    ensures Pool(b[|b| - 1]) !in AsMap(b[..|b| - 1])
  {
    hide Pool;
    MapMembers(b[..|b| - 1]);
  }

  lemma AppendDistinct(k: Buffer, e: Update)
    requires Distinct(k)
    ensures Pool(e) !in AsMap(k) ==> Distinct(k + [e])
  {
    hide Pool;
    MapMembers(k);
  }

  lemma {:induction false} FlushTablesMeaning(t: Tables, b: Buffer, p: string)
    ensures FlushTables(t, b).registry == t.registry
    ensures if p in AsMap(b) && p in t.registry then Shows(FlushTables(t, b), p, AsMap(b)[p])
            else Get(FlushTables(t, b).poolState, p) == Get(t.poolState, p)
  {
    hide Pool;
    if b != [] { FlushTablesMeaning(t, b[..|b| - 1], p); }
  }

  lemma KeptFlush(s: State)
    requires Kept(s)
    ensures Kept(Flush(s))
    ensures forall p :: p in Flush(s).backup ==> p !in s.tables.registry
  {
    hide Pool, FlushTables, FlushBuffer, Shows;
    var u := Flush(s);
    FlushBufferMeaning(s.tables.registry, s.buffer);
    forall p | p in u.latest ensures p in u.backup || p in u.evicted || Shows(u.tables, p, u.latest[p]) {
      FlushTablesMeaning(s.tables, s.buffer, p);
      ShowsSame(s.tables, u.tables, p, u.latest[p]);
    }
  }

  lemma ShowsSame(t: Tables, u: Tables, p: string, e: Update)
    ensures Get(t.poolState, p) == Get(u.poolState, p) ==> (Shows(t, p, e) <==> Shows(u, p, e))
  {
  }

  lemma KeptReceive(s: State, e: Update)
    requires Kept(s) && (Pool(e) in s.tables.registry ==> Pool(e) !in s.backup)
    ensures Kept(Receive(s, e))
  {
    if Pool(e) in s.tables.registry { KeptApplied(s, e); } else { KeptBuffered(s, e); }
  }

  lemma KeptApplied(s: State, e: Update)
    requires Kept(s) && Pool(e) in s.tables.registry && Pool(e) !in s.backup
    ensures Kept(Receive(s, e))
  {
    hide Pool, InitialPrice, AsMap, Distinct;
  }

  lemma KeptBuffered(s: State, e: Update)
    requires Kept(s) && Pool(e) !in s.tables.registry
    ensures Kept(Receive(s, e))
  {
    hide Pool, Put, Applied, Shows, AsMap, Distinct;
    PutMeaning(s.buffer, e);
    var b := Put(s.buffer, e);
    if |b| > BUFFER_LIMIT { DropOldest(b); }
  }

  lemma KeptStep(s: State, t: Step)
    requires Kept(s) && !t.Boot?
    ensures Kept(Exec(s, t))
  {
    assert s.phase.Running?;
    hide Kept, Flush, Receive, Register;
    match t
    case Registered(p, token) => KeptRegister(s, p, token);
    case Handle(e) =>
      FlushKeepsTables(s);
      KeptFlush(s);
      KeptReceive(Flush(s), e);
    case Timer => KeptFlush(s);
    case _ =>
  }

  lemma FlushKeepsTables(s: State)
    ensures Flush(s).tables.registry == s.tables.registry
  {
    FlushRegistry(s.tables, s.buffer);
  }

  /** In every run of one process with atomic handlers: the newest update handled for each pool is
      in the buffer or shown in pool_state, no older one standing in its place, unless it was evicted from
      a full buffer; and the buffer never holds more than 500 entries between steps. */
  lemma {:induction false} NewestKept(s: State, ts: seq<Step>, p: string)
    requires Start(s) && forall i :: 0 <= i < |ts| ==> !ts[i].Boot?
    ensures var u := Run(s, ts);
            && Kept(u)
            && |u.buffer| <= 500
            && (p in u.latest ==>
                  if p in AsMap(u.buffer) then AsMap(u.buffer)[p] == u.latest[p]
                  else p in u.evicted || Shows(u.tables, p, u.latest[p]))
  {
    hide Exec;
    if ts != [] {
      NewestKept(s, ts[..|ts| - 1], p);
      KeptStep(Run(s, ts[..|ts| - 1]), ts[|ts| - 1]);
    }
  }

  /** Handling an update evicts nothing if and only if its pool is registered, or no more than 500
      unregistered pools are waiting with it. */
  lemma NoEviction(s: State, e: Update)
    requires Kept(s)
    ensures Exec(s, Handle(e)).evicted == s.evicted - {Pool(e)}
            <==> Pool(e) in s.tables.registry || |s.backup.Keys - s.tables.registry.Keys + {Pool(e)}| <= BUFFER_LIMIT
  {
    FlushKeepsTables(s);
    KeptFlush(s);
    FlushedBackup(s);
    ReceiveEvicts(Flush(s), e);
    hide Flush, Receive, Pool, Kept;
  }

  lemma FlushedBackup(s: State)
    requires Kept(s)
    ensures Flush(s).backup.Keys == s.backup.Keys - s.tables.registry.Keys && Flush(s).evicted == s.evicted
  {
    hide FlushBuffer, FlushTables;
    MapMembers(s.buffer);
  }

  lemma ReceiveEvicts(s: State, e: Update)
    requires Kept(s)
    ensures Receive(s, e).evicted == s.evicted - {Pool(e)}
            <==> Pool(e) in s.tables.registry || |s.backup.Keys + {Pool(e)}| <= BUFFER_LIMIT
  {
    hide Pool, Put, Applied, Kept;
    if Pool(e) !in s.tables.registry { Overflow(s, e); }
  }

  /** What would overflow the buffer, and what an overflow drops. */
  lemma Overflow(s: State, e: Update)
    requires Kept(s)
    ensures var b := Put(s.buffer, e);
            && |b| == |s.backup.Keys + {Pool(e)}|
            && (|b| > BUFFER_LIMIT ==> Pool(b[0]) != Pool(e) && Pool(b[0]) !in s.evicted)
  {
    hide Pool, Put;
    var b := Put(s.buffer, e);
    PutMeaning(s.buffer, e);
    MapMembers(b);
    assert AsMap(b).Keys == s.backup.Keys + {Pool(e)};
    if |b| > BUFFER_LIMIT {
      MapMembers(s.buffer);
      assert Pool(b[0]) in s.backup;
    }
  }

  lemma {:induction false} FlushKeepsPrices(t: Tables, b: Buffer, token: string)
    requires token in t.initialPrice
    ensures Get(FlushTables(t, b).initialPrice, token) == Some(t.initialPrice[token])
  {
    hide InitialPrice;
    if b != [] { FlushKeepsPrices(t, b[..|b| - 1], token); }
  }

  /** An initial price once set never changes, in any run. */
  lemma {:induction false} InitialPriceFixed(s: State, ts: seq<Step>, token: string)
    requires token in s.tables.initialPrice
    ensures Get(Run(s, ts).tables.initialPrice, token) == Some(s.tables.initialPrice[token])
  {
    hide FlushTables, FlushBuffer, Put, InitialPrice;
    if ts != [] {
      InitialPriceFixed(s, ts[..|ts| - 1], token);
      var u := Run(s, ts[..|ts| - 1]);
      FlushKeepsPrices(u.tables, u.buffer, token);
    }
  }

  // ----- What is applied, from the update's own fields -----

  lemma TwoTo192()
    ensures TWO_192 == 0x1_00000000_00000000 * 0x1_00000000_00000000 * 0x1_00000000_00000000
  {
  }

  /** The price of a square-root price q (in units of 2^-96) is 1 / (q / 2^96)^2 in wei, rounded down. */
  lemma InitialPriceMeaning(q: nat, p: nat)
    requires q > 0
    ensures q * q > 0 && (p <= InitialPrice(q) <==> p * (q * q) <= TWO_192 * 1_000_000_000_000_000_000)
  {
    var a, b := TWO_192 * WAD, q * q;
    assert b > 0 by { MulGap(q, 0, q); }
    FloorMeaning(a, b, p);
  }

  /** Applying an update of a registered pool: its row holds the token registered for it, the update's values
      and the highest block; a token without a price gets one if the square-root price is positive; no other
      row and no other price changes. Nothing happens for a pool that is not registered. */
  lemma ApplyMeaning(t: Tables, e: Update, p: string, token: string)
    ensures var id, u := Lower(e.poolId), Apply(t, e);
            && u.registry == t.registry
            && (id !in t.registry ==> u == t)
            && (id in t.registry ==>
                  && u.poolState[id].token == t.registry[id]
                  && u.poolState[id].liquidity == e.liquidity && u.poolState[id].sqrtPrice == e.sqrtPrice
                  && u.poolState[id].updatedBlock == Max(e.block, if id in t.poolState then t.poolState[id].updatedBlock else 0)
                  && (p != id ==> Get(u.poolState, p) == Get(t.poolState, p))
                  && Get(u.initialPrice, token)
                     == if token == t.registry[id] && e.sqrtPrice > 0 && token !in t.initialPrice
                        then Some(InitialPrice(e.sqrtPrice)) else Get(t.initialPrice, token))
  {
    hide Lower, InitialPrice;
  }

  /** The updates a stretch of buffer applies: those of registered pools, in order. */
  function RegisteredOf(registry: map<string, string>, b: Buffer): seq<Update> {
    if b == [] then []
    else
      var k := RegisteredOf(registry, b[..|b| - 1]);
      if Lower(b[|b| - 1].poolId) in registry then k + [b[|b| - 1]] else k
  }

  /** The updates a step applies: what its flush takes from the buffer, then the one it handles. */
  function AppliedIn(s: State, t: Step): seq<Update> {
    match t
    case Handle(e) => RegisteredOf(s.tables.registry, s.buffer) + if Lower(e.poolId) in s.tables.registry then [e] else []
    case Timer => RegisteredOf(s.tables.registry, s.buffer)
    case _ => []
  }

  function AppliedRun(s: State, ts: seq<Step>): seq<Update> {
    if ts == [] then []
    else AppliedRun(s, ts[..|ts| - 1]) + AppliedIn(Run(s, ts[..|ts| - 1]), ts[|ts| - 1])
  }

  /** A flush divides the buffer: what it applies and what it keeps, each in order. */
  lemma {:induction false} FlushDivides(registry: map<string, string>, a: Buffer, b: Buffer)
    ensures FlushBuffer(registry, a + b) == FlushBuffer(registry, a) + FlushBuffer(registry, b)
    ensures RegisteredOf(registry, a + b) == RegisteredOf(registry, a) + RegisteredOf(registry, b)
  {
    if b == [] {
      assert a + b == a;
    } else {
      FlushDivides(registry, a, b[..|b| - 1]);
      assert (a + b)[..|a + b| - 1] == a + b[..|b| - 1];
    }
  }

  lemma FlushOne(registry: map<string, string>, e: Update)
    ensures FlushBuffer(registry, [e]) == if Lower(e.poolId) in registry then [] else [e]
    ensures RegisteredOf(registry, [e]) == if Lower(e.poolId) in registry then [e] else []
  {
    assert [e][..0] == [];
  }

  lemma {:induction false} FlushJoin(t: Tables, a: Buffer, b: Buffer)
    ensures FlushTables(t, a + b) == FlushTables(FlushTables(t, a), b)
  {
    hide Apply;
    if b == [] {
      assert a + b == a;
    } else {
      FlushJoin(t, a, b[..|b| - 1]);
      assert (a + b)[..|a + b| - 1] == a + b[..|b| - 1];
    }
  }

  ghost predicate AllRegistered(registry: map<string, string>, es: seq<Update>) {
    forall i :: 0 <= i < |es| ==> Pool(es[i]) in registry
  }

  lemma {:induction false} FlushOnlyRegistered(t: Tables, b: Buffer)
    ensures FlushTables(t, RegisteredOf(t.registry, b)) == FlushTables(t, b)
    ensures AllRegistered(t.registry, RegisteredOf(t.registry, b))
  {
    hide Apply, Lower, FlushTables;
    if b == [] {
      NoneApplied(t);
    } else {
      var front, e := b[..|b| - 1], b[|b| - 1];
      FlushOnlyRegistered(t, front);
      FlushRegistry(t, front);
      HandledLast(t, RegisteredOf(t.registry, front), e);
      HandledLast(t, front, e);
      assert b == front + [e];
    }
  }

  /** A registration made later does not change what was applied. */
  lemma {:induction false} FlushLater(t: Tables, es: seq<Update>, registry: map<string, string>)
    requires AllRegistered(t.registry, es) && forall p :: p in t.registry ==> p in registry && registry[p] == t.registry[p]
    ensures FlushTables(t.(registry := registry), es) == FlushTables(t, es).(registry := registry)
  {
    hide InitialPrice, Lower;
    if es != [] {
      FlushLater(t, es[..|es| - 1], registry);
      FlushRegistry(t, es[..|es| - 1]);
      assert Pool(es[|es| - 1]) in t.registry;
    }
  }

  /** The tables of a run, through any restarts, are those of applying its updates one by one. */
  lemma {:induction false} RunTables(s: State, ts: seq<Step>)
    ensures var u, applied := Run(s, ts).tables, AppliedRun(s, ts);
            && (forall p :: p in s.tables.registry ==> Get(u.registry, p) == Some(s.tables.registry[p]))
            && AllRegistered(u.registry, applied)
            && u == FlushTables(s.tables.(registry := u.registry), applied)
  {
    hide FlushTables, FlushBuffer, Put, PutAll, Apply, Lower, RegisteredOf, Exec, AppliedIn;
    if ts == [] {
      NoneApplied(s.tables);
    } else {
      var front, t := ts[..|ts| - 1], ts[|ts| - 1];
      RunTables(s, front);
      RunTablesNext(s.tables, Run(s, front), AppliedRun(s, front), t);
    }
  }

  lemma NoneApplied(t: Tables)
    ensures FlushTables(t, []) == t
  {
  }

  lemma RunTablesNext(t: Tables, w: State, applied: seq<Update>, step: Step)
    requires forall p :: p in t.registry ==> Get(w.tables.registry, p) == Some(t.registry[p])
    requires AllRegistered(w.tables.registry, applied)
    requires w.tables == FlushTables(t.(registry := w.tables.registry), applied)
    ensures var u, more := Exec(w, step).tables, applied + AppliedIn(w, step);
            && (forall p :: p in t.registry ==> Get(u.registry, p) == Some(t.registry[p]))
            && AllRegistered(u.registry, more)
            && u == FlushTables(t.(registry := u.registry), more)
  {
    hide FlushTables, FlushBuffer, Put, PutAll, Lower, RegisteredOf, Exec;
    ExecTables(w, step);
    var base := t.(registry := w.tables.registry);
    FlushJoin(base, applied, AppliedIn(w, step));
    if step.Registered? {
      FlushLater(base, applied, Exec(w, step).tables.registry);
      assert applied + [] == applied;
    }
  }

  /** What a step does to the tables: a registration adds to the registry, any other step applies updates. */
  lemma ExecTables(w: State, step: Step)
    ensures var u := Exec(w, step).tables;
            && (forall p :: p in w.tables.registry ==> Get(u.registry, p) == Some(w.tables.registry[p]))
            && AllRegistered(w.tables.registry, AppliedIn(w, step))
            && (if step.Registered? then AppliedIn(w, step) == [] && u == w.tables.(registry := u.registry)
                else u == FlushTables(w.tables, AppliedIn(w, step)) && u.registry == w.tables.registry)
  {
    hide FlushBuffer, Put, PutAll, Lower, RegisteredOf, Apply, Applied, FlushTables;
    var r := RegisteredOf(w.tables.registry, w.buffer);
    FlushOnlyRegistered(w.tables, w.buffer);
    FlushRegistry(w.tables, w.buffer);
    FlushRegistry(w.tables, AppliedIn(w, step));
    NoneApplied(w.tables);
    if step.Handle? {
      HandledLast(w.tables, r, step.e);
      ReceiveTables(Flush(w), step.e);
      assert r + [] == r;
    }
  }

  lemma ReceiveTables(s: State, e: Update)
    ensures Receive(s, e).tables == Apply(s.tables, e)
  {
    hide Applied, Put;
  }

  lemma HandledLast(t: Tables, r: seq<Update>, e: Update)
    ensures FlushTables(t, r + [e]) == Apply(FlushTables(t, r), e)
    ensures Pool(e) !in FlushTables(t, r).registry ==> Apply(FlushTables(t, r), e) == FlushTables(t, r)
  {
    hide Applied, Lower;
    assert (r + [e])[..|r|] == r;
  }

  /** The price set by the first of these updates that sets one for the token. */
  function FirstPrice(registry: map<string, string>, es: seq<Update>, token: string): Option<nat> {
    if es == [] then None
    else
      var before, e := FirstPrice(registry, es[..|es| - 1], token), es[|es| - 1];
      if before.Some? then before else if Prices(registry, e, token) then Some(InitialPrice(e.sqrtPrice)) else None
  }

  /** Would this update set a price for the token? */
  predicate Prices(registry: map<string, string>, e: Update, token: string) {
    Get(registry, Lower(e.poolId)) == Some(token) && e.sqrtPrice > 0
  }

  lemma {:induction false} FirstPriceMeaning(registry: map<string, string>, es: seq<Update>, token: string)
    ensures FirstPrice(registry, es, token).None? <==> forall i :: 0 <= i < |es| ==> !Prices(registry, es[i], token)
    ensures forall i :: 0 <= i < |es| && Prices(registry, es[i], token) && (forall j :: 0 <= j < i ==> !Prices(registry, es[j], token)) ==>
              FirstPrice(registry, es, token) == Some(InitialPrice(es[i].sqrtPrice))
  {
    hide InitialPrice, Lower;
    if es != [] {
      var front, n := es[..|es| - 1], |es| - 1;
      FirstPriceMeaning(registry, front, token);
      assert forall i :: 0 <= i < n ==> front[i] == es[i];
    }
  }

  lemma {:induction false} FlushPrices(t: Tables, es: seq<Update>, token: string)
    ensures Get(FlushTables(t, es).initialPrice, token)
            == if token in t.initialPrice then Some(t.initialPrice[token]) else FirstPrice(t.registry, es, token)
  {
    hide InitialPrice, Lower;
    if es != [] {
      var front, e := es[..|es| - 1], es[|es| - 1];
      FlushPrices(t, front, token);
      FlushRegistry(t, front);
      ApplyMeaning(FlushTables(t, front), e, "", token);
      hide Apply;
    }
  }

  /** Over any run, a token's price is the one it had, or else that of the first update applied for it with a
      positive square-root price; it has none exactly when there was no such update. */
  lemma InitialPriceSet(s: State, ts: seq<Step>, token: string)
    ensures var u, applied := Run(s, ts).tables, AppliedRun(s, ts);
            Get(u.initialPrice, token)
            == if token in s.tables.initialPrice then Some(s.tables.initialPrice[token]) else FirstPrice(u.registry, applied, token)
  {
    hide FlushTables, FirstPrice, AppliedRun, Run;
    RunTables(s, ts);
    var u := Run(s, ts).tables;
    FlushPrices(s.tables.(registry := u.registry), AppliedRun(s, ts), token);
  }

  /** A row after these updates of its pool: the last one's values, the registered token, the highest block. */
  function RowAfter(registry: map<string, string>, row: Option<PoolRow>, es: seq<Update>, p: string): Option<PoolRow> {
    if es == [] then row
    else
      var before, e := RowAfter(registry, row, es[..|es| - 1], p), es[|es| - 1];
      if Lower(e.poolId) == p && p in registry
      then Some(PoolRow(registry[p], e.liquidity, e.sqrtPrice, Max(e.block, if before.Some? then before.value.updatedBlock else 0)))
      else before
  }

  lemma {:induction false} FlushRows(t: Tables, es: seq<Update>, p: string)
    ensures Get(FlushTables(t, es).poolState, p) == RowAfter(t.registry, Get(t.poolState, p), es, p)
  {
    hide InitialPrice, Lower;
    if es != [] {
      var front, e := es[..|es| - 1], es[|es| - 1];
      FlushRows(t, front, p);
      FlushRegistry(t, front);
      ApplyMeaning(FlushTables(t, front), e, p, "");
      hide Apply;
    }
  }

  /** Over any run, a pool's row is that of the updates applied for it, in order. */
  lemma RowShown(s: State, ts: seq<Step>, p: string)
    ensures var u := Run(s, ts).tables;
            Get(u.poolState, p) == RowAfter(u.registry, Get(s.tables.poolState, p), AppliedRun(s, ts), p)
  {
    hide FlushTables, RowAfter, AppliedRun, Run;
    RunTables(s, ts);
    var u := Run(s, ts).tables;
    FlushRows(s.tables.(registry := u.registry), AppliedRun(s, ts), p);
  }

  /** A handler that is not atomic can break this. When a registration of pool q comes between the flush
      and the apply of one call, what NewestKept promises survives if and only if the update is not for q,
      or no other update of q was still buffered. Otherwise the newer update goes to pool_state at once
      while the older one stays buffered, and the next flush writes the older one over it. */
  lemma RegistrationRace(s: State, q: string, token: string, newer: Update)
    requires Kept(s)
    ensures var buffered := AsMap(Flush(s).buffer);
            var raced := Receive(Register(Flush(s), q, token), newer);
            && (Kept(raced) <==> Pool(newer) != q || q !in buffered || buffered[q] == newer)
            && (!Kept(raced) ==> raced.latest[q] == newer && Shows(Flush(raced).tables, q, buffered[q]))
  {
    hide InitialPrice, FlushTables, FlushBuffer, Pool, Put;
    var f := Flush(s);
    var g := Register(f, q, token);
    FlushKeepsTables(s);
    KeptFlush(s);
    KeptRegister(f, q, token);
    if Pool(newer) == q && q in AsMap(f.buffer) {
      RacedReceive(g, newer);
    } else {
      KeptReceive(g, newer);
    }
  }

  lemma KeptRegister(s: State, q: string, token: string)
    requires Kept(s)
    ensures Kept(Register(s, q, token)) && q in Register(s, q, token).tables.registry
    ensures forall p :: p in Register(s, q, token).tables.registry <==> p in s.tables.registry || p == q
  {
  }

  /** An update for a registered pool that is still buffered. */
  lemma RacedReceive(s: State, e: Update)
    requires Kept(s) && Pool(e) in s.tables.registry && Pool(e) in AsMap(s.buffer)
    ensures var raced, earlier := Receive(s, e), AsMap(s.buffer)[Pool(e)];
            && (Kept(raced) <==> earlier == e)
            && raced.latest[Pool(e)] == e && Shows(Flush(raced).tables, Pool(e), earlier)
  {
    hide InitialPrice, FlushTables, FlushBuffer, Pool;
    FlushTablesMeaning(Receive(s, e).tables, s.buffer, Pool(e));
    assert Receive(s, e).latest[Pool(e)] == e && Receive(s, e).backup[Pool(e)] == AsMap(s.buffer)[Pool(e)];
    if AsMap(s.buffer)[Pool(e)] == e {
      assert Receive(s, e).latest == s.latest;
    }
  }
}
