/** Reorganisation recovery over the hash-linked header store: backtracing to a common
    ancestor, the delete cascade, the checkpoint, and the live path around them. */
module Reorg {
  import opened Base
  import opened Candles
  import CatchUp

  datatype Header = Header(number: int, hash: string, parent: string, timestamp: nat)

  datatype TradeRow = TradeRow(block: int, token: string, timestamp: nat, isBuy: bool,
                               sender: Option<string>, recipient: Option<string>)

  datatype PositionKey = PositionKey(wallet: string, token: string)

  datatype FeeRow = FeeRow(block: int, amount: nat)

  datatype Checkpoint = Checkpoint(block: int, hash: string)

  /** The tables the scanner writes, and the blocks whose events reached the streams. */
  datatype Store = Store(headers: map<int, Header>, trades: map<string, TradeRow>, candles: Table,
                         positions: map<PositionKey, int>, fees: map<string, FeeRow>,
                         checkpoint: Option<Checkpoint>, published: set<int>)

  /** The node's answer for a height; None when the request fails for good. */
  type Rpc = int -> Option<Header>

  // ----- The statements -----

  function HeadersUpTo(headers: map<int, Header>, b: int): map<int, Header> {
    map n | n in headers && n <= b :: headers[n]
  }

  function TradesUpTo(trades: map<string, TradeRow>, b: int): map<string, TradeRow> {
    map id | id in trades && trades[id].block <= b :: trades[id]
  }

  function FeesUpTo(fees: map<string, FeeRow>, b: int): map<string, FeeRow> {
    map id | id in fees && fees[id].block <= b :: fees[id]
  }

  function Minute(t: nat): nat { t / 60 * 60 }

  /** The WHERE clause of the candle delete: the token has a trade above b, and the bucket starts
      at or after the minute of the earliest trade above b (that is, of some trade above b). */
  predicate CandleSelected(k: Key, trades: map<string, TradeRow>, b: int) {
    && (exists id | id in trades :: trades[id].block > b && trades[id].token == k.token)
    && (exists id | id in trades :: trades[id].block > b && k.bucket >= Minute(trades[id].timestamp))
  }

  function CandlesKept(candles: Table, trades: map<string, TradeRow>, b: int): Table {
    map k | k in candles && !CandleSelected(k, trades, b) :: candles[k]
  }

  function Party(t: TradeRow): Option<string> {
    if t.isBuy then t.recipient else t.sender
  }

  predicate PositionSelected(p: PositionKey, trades: map<string, TradeRow>, b: int) {
    exists id | id in trades ::
      trades[id].block > b && trades[id].token == p.token && Party(trades[id]) == Some(p.wallet)
  }

  function PositionsKept(positions: map<PositionKey, int>, trades: map<string, TradeRow>, b: int): map<PositionKey, int> {
    map p | p in positions && !PositionSelected(p, trades, b) :: positions[p]
  }

  function AncestorHash(headers: map<int, Header>, a: int): string {
    if a in headers then headers[a].hash else "0x"
  }

  const RECOVERY_STATEMENTS := 6

  /** The first k statements of a recovery to ancestor a, in the program's order. */
  function Recovering(s: Store, a: int, k: nat): Store {
    if k == 0 then s else Statement(Recovering(s, a, k - 1), a, k)
  }

  function Statement(r: Store, a: int, k: nat): Store {
    match k
    case 1 => r.(trades := TradesUpTo(r.trades, a))
    case 2 => r.(candles := CandlesKept(r.candles, r.trades, a))
    case 3 => r.(positions := PositionsKept(r.positions, r.trades, a))
    case 4 => r.(fees := FeesUpTo(r.fees, a))
    case 5 => r.(headers := HeadersUpTo(r.headers, a))
    case 6 => r.(checkpoint := Some(Checkpoint(a, AncestorHash(r.headers, a))))
    case _ => r
  }

  /** What a complete recovery means: exactly the headers, trades and fee rows at or below the
      ancestor remain, the checkpoint is the ancestor, and nothing else changes. */
  function Recovered(s: Store, a: int): Store {
    s.(headers := HeadersUpTo(s.headers, a), trades := TradesUpTo(s.trades, a), fees := FeesUpTo(s.fees, a),
       checkpoint := Some(Checkpoint(a, AncestorHash(s.headers, a))))
  }

  // ----- Backtrace -----

  /** The backtrace as a recursion; None when a request fails on the way. */
  function Ancestor(headers: map<int, Header>, start: int, rpc: Rpc): (a: Option<int>)
    decreases start
  {
    if start <= 0 then Some(0)
    else if rpc(start).None? then None
    else if start in headers && headers[start].hash == rpc(start).value.hash then Some(start)
    else Ancestor(headers, start - 1, rpc)
  }

  ghost predicate Matches(headers: map<int, Header>, n: int, rpc: Rpc) {
    n in headers && rpc(n).Some? && headers[n].hash == rpc(n).value.hash
  }

  /** The backtrace returns the greatest positive stored height at or below the start whose hash
      is the node's, else 0; it fails exactly when the node fails above every match. */
  lemma {:induction false} AncestorIsGreatestMatch(headers: map<int, Header>, start: int, rpc: Rpc)
    ensures var r := Ancestor(headers, start, rpc);
            && (r.Some? ==>
                  && (if r.value > 0 then r.value <= start && Matches(headers, r.value, rpc) else r.value == 0)
                  && forall n :: r.value < n <= start ==> rpc(n).Some? && !Matches(headers, n, rpc))
            && (r.None? ==>
                  exists n :: 0 < n <= start && rpc(n).None? && forall m :: n < m <= start ==> !Matches(headers, m, rpc))
    decreases start
  {
    if start > 0 && rpc(start).Some? && !Matches(headers, start, rpc) {
      AncestorIsGreatestMatch(headers, start - 1, rpc);
      if Ancestor(headers, start, rpc).None? {
        var n :| 0 < n <= start - 1 && rpc(n).None? && forall m :: n < m <= start - 1 ==> !Matches(headers, m, rpc);
        assert forall m :: n < m <= start ==> !Matches(headers, m, rpc);
      }
    }
  }

  predicate ReorgSeen(headers: map<int, Header>, incoming: Header) {
    incoming.number - 1 in headers && headers[incoming.number - 1].hash != incoming.parent
  }

  /** block_hash is UNIQUE: an insert at a new height fails when another row has the hash. */
  predicate HashTaken(headers: map<int, Header>, h: Header) {
    h.number !in headers && exists n | n in headers :: headers[n].hash == h.hash
  }

  // ON CONFLICT (block_number) DO NOTHING.
  function InsertHeader(headers: map<int, Header>, h: Header): map<int, Header> {
    if h.number in headers then headers else headers[h.number := h]
  }

  /** The live path for one block: recover and return, or publish, store the header, checkpoint. It stops
      after `stop` statements (complete from COMPLETE on), or where the header insert fails. */
  function Process(s: Store, block: Header, rpc: Rpc, stop: nat): Store {
    if ReorgSeen(s.headers, block) then
      var a := Ancestor(s.headers, block.number - 1, rpc);
      if a.None? then s else Recovering(s, a.value, Min(stop, RECOVERY_STATEMENTS))
    else if stop == 0 then s
    else
      var p := s.(published := s.published + {block.number});
      if stop == 1 || HashTaken(s.headers, block) then p
      else
        var q := p.(headers := InsertHeader(s.headers, block));
        if stop == 2 then q else q.(checkpoint := Some(Checkpoint(block.number, block.hash)))
  }

  const COMPLETE := RECOVERY_STATEMENTS

  datatype ReorgResult = NotDetected | Detected(ancestor: int) | Failed

  class Database {
    var headers: map<int, Header>
    var trades: map<string, TradeRow>
    var candles: Table
    var positions: map<PositionKey, int>
    var fees: map<string, FeeRow>
    var checkpoint: Option<Checkpoint>
    var published: set<int>

    ghost function Contents(): Store
      reads this
    {
      Store(headers, trades, candles, positions, fees, checkpoint, published)
    }

    constructor (s: Store)
      ensures Contents() == s
    {
      headers, trades, candles, positions := s.headers, s.trades, s.candles, s.positions;
      fees, checkpoint, published := s.fees, s.checkpoint, s.published;
    }

    method Backtrace(blockNumber: int, rpc: Rpc) returns (r: Option<int>)
      ensures r == Ancestor(headers, blockNumber, rpc)
    {
      var current := blockNumber;
      while current > 0
        invariant current <= blockNumber
        invariant Ancestor(headers, blockNumber, rpc) == Ancestor(headers, current, rpc)
      {
        var rpcHeader := rpc(current);
        if rpcHeader.None? { return None; }
        if current in headers && headers[current].hash == rpcHeader.value.hash { return Some(current); }
        current := current - 1;
      }
      return Some(0);
    }

    /** detectAndRecover; the process stops after `stop` statements of the recovery
        (complete from 6 on), since the statements share no transaction. */
    method DetectAndRecover(incoming: Header, rpc: Rpc, stop: nat) returns (r: ReorgResult)
      modifies this
      ensures !ReorgSeen(old(headers), incoming) ==> r == NotDetected && Contents() == old(Contents())
      ensures ReorgSeen(old(headers), incoming) ==>
                var a := Ancestor(old(headers), incoming.number - 1, rpc);
                if a.None? then r == Failed && Contents() == old(Contents())
                else if stop < RECOVERY_STATEMENTS then r == Failed && Contents() == Recovering(old(Contents()), a.value, stop)
                else r == Detected(a.value) && Contents() == Recovering(old(Contents()), a.value, RECOVERY_STATEMENTS)
    {
      if incoming.number - 1 !in headers { return NotDetected; }
      if headers[incoming.number - 1].hash == incoming.parent { return NotDetected; }
      var back := Backtrace(incoming.number - 1, rpc);
      if back.None? { return Failed; }
      hide Ancestor, Recovering;
      var done := Recover(back.value, stop);
      r := if done then Detected(back.value) else Failed;
    }

    /** The cleanup cascade. */
    method Recover(a: int, stop: nat) returns (done: bool)
      modifies this
      ensures Contents() == Recovering(old(Contents()), a, Min(stop, RECOVERY_STATEMENTS))
      ensures done <==> stop >= RECOVERY_STATEMENTS
    {
      hide Recovering, CandleSelected, PositionSelected, Minute, Party, HeadersUpTo, TradesUpTo, FeesUpTo, CandlesKept, PositionsKept, AncestorHash;
      CascadeFacts(Contents(), a, Min(stop, RECOVERY_STATEMENTS));
      if stop == 0 { return false; }
      trades := TradesUpTo(trades, a);
      if stop == 1 { return false; }
      candles := CandlesKept(candles, trades, a);
      if stop == 2 { return false; }
      positions := PositionsKept(positions, trades, a);
      if stop == 3 { return false; }
      fees := FeesUpTo(fees, a);
      if stop == 4 { return false; }
      headers := HeadersUpTo(headers, a);
      if stop == 5 { return false; }
      checkpoint := Some(Checkpoint(a, AncestorHash(headers, a)));
      done := true;
    }

    /** processConfirmedBlock, as far as the tables go; a failure of the log fetch, of publishing, or of a
        table write stops it after `stop` statements. */
    method ProcessConfirmedBlock(block: Header, rpc: Rpc, stop: nat) returns (ok: bool)
      modifies this
      ensures Contents() == Process(old(Contents()), block, rpc, stop)
    {
      hide Ancestor, Recovering;
      var r := DetectAndRecover(block, rpc, stop);
      if r.Failed? { return false; }
      if r.Detected? { return true; }
      if stop == 0 { return false; }
      published := published + {block.number};
      if stop == 1 || HashTaken(headers, block) { return false; }
      headers := InsertHeader(headers, block);
      if stop == 2 { return false; }
      checkpoint := Some(Checkpoint(block.number, block.hash));
      ok := true;
    }
  }

  // ----- What recovery leaves -----

  lemma NothingSelected(candles: Table, positions: map<PositionKey, int>, trades: map<string, TradeRow>, a: int)
    requires forall id :: id in trades ==> trades[id].block <= a
    ensures CandlesKept(candles, trades, a) == candles
    ensures PositionsKept(positions, trades, a) == positions
  {
  }

  /** The tables after the first k statements: nothing is taken from candles or positions. */
  function Cut(s: Store, a: int, k: nat): Store {
    Store(if k >= 5 then HeadersUpTo(s.headers, a) else s.headers,
          if k >= 1 then TradesUpTo(s.trades, a) else s.trades,
          s.candles, s.positions,
          if k >= 4 then FeesUpTo(s.fees, a) else s.fees,
          if k >= 6 then Some(Checkpoint(a, AncestorHash(s.headers, a))) else s.checkpoint,
          s.published)
  }

  lemma {:induction false} CutMeaning(s: Store, a: int, k: nat)
    requires k <= RECOVERY_STATEMENTS
    ensures Recovering(s, a, k) == Cut(s, a, k)
  {
    hide CandlesKept, PositionsKept;
    if k > 0 {
      CutMeaning(s, a, k - 1);
      NothingSelected(s.candles, s.positions, TradesUpTo(s.trades, a), a);
      TwiceIsOnce(s, a);
    }
  }

  /** What the statements meet as they run. */
  lemma CascadeFacts(s: Store, a: int, k: nat)
    requires k <= RECOVERY_STATEMENTS
    ensures Recovering(s, a, k) == Cut(s, a, k)
    ensures CandlesKept(s.candles, TradesUpTo(s.trades, a), a) == s.candles
    ensures PositionsKept(s.positions, TradesUpTo(s.trades, a), a) == s.positions
    ensures AncestorHash(HeadersUpTo(s.headers, a), a) == AncestorHash(s.headers, a)
  {
    CutMeaning(s, a, k);
    NothingSelected(s.candles, s.positions, TradesUpTo(s.trades, a), a);
    TwiceIsOnce(s, a);
  }

  /** The six statements leave exactly the headers, trades and fee rows at or below the ancestor
      and set the checkpoint to it. Because the trades go first, the candle and position deletes,
      which select from trades, remove nothing. */
  lemma RecoveryMeaning(s: Store, a: int)
    ensures Recovering(s, a, RECOVERY_STATEMENTS) == Recovered(s, a)
    ensures var u := Recovering(s, a, RECOVERY_STATEMENTS);
            && (forall n :: Get(u.headers, n) == if n <= a then Get(s.headers, n) else None)
            && (forall id :: Get(u.trades, id) == if id in s.trades && s.trades[id].block <= a then Some(s.trades[id]) else None)
            && (forall id :: Get(u.fees, id) == if id in s.fees && s.fees[id].block <= a then Some(s.fees[id]) else None)
            && u.checkpoint == Some(Checkpoint(a, if a in s.headers then s.headers[a].hash else "0x"))
            && u.candles == s.candles && u.positions == s.positions && u.published == s.published
  {
    CutMeaning(s, a, RECOVERY_STATEMENTS);
    hide Recovering;
  }

  /** Were the position delete run first: it would take exactly the positions of the makers of orphaned trades,
      the recipient of a purchase and the sender of a sale. */
  lemma PositionDeleteFirst(positions: map<PositionKey, int>, trades: map<string, TradeRow>, b: int, p: PositionKey)
    ensures Get(PositionsKept(positions, trades, b), p)
            == if exists id :: id in trades && trades[id].block > b && trades[id].token == p.token
                             && ((trades[id].isBuy && trades[id].recipient == Some(p.wallet))
                                 || (!trades[id].isBuy && trades[id].sender == Some(p.wallet)))
               then None else Get(positions, p)
  {
  }

  /** The candle row a trade is part of, at one resolution. */
  function RowOf(t: TradeRow, r: Resolution): Key {
    Key(t.token, r, Bucket(t.timestamp, r))
  }

  /** Finer buckets start later: the day's start is a multiple of every resolution. */
  lemma DayStartsFirst(timestamp: nat, r: Resolution)
    ensures Bucket(timestamp, D1) <= Bucket(timestamp, r)
  {
    var s, day := Seconds(r), Bucket(timestamp, D1);
    assert day % s == 0 by { Candles.Realign(day, s, 86400 / s); }
    if Bucket(timestamp, r) < day {
      AlignedApart(Bucket(timestamp, r), day, s);
    }
  }

  /** Were the candle delete run first, it would always take the one-minute row of an orphaned trade, but
      its rows at all five resolutions if and only if some orphan's minute starts no later than its day:
      otherwise the day candle keeps counting the orphan. */
  lemma CandleDeleteFirst(trades: map<string, TradeRow>, b: int, id: string)
    requires id in trades && trades[id].block > b
    ensures CandleSelected(RowOf(trades[id], M1), trades, b)
    ensures (forall r :: CandleSelected(RowOf(trades[id], r), trades, b))
            <==> exists j :: j in trades && trades[j].block > b && Minute(trades[j].timestamp) <= Bucket(trades[id].timestamp, D1)
  {
    var t := trades[id];
    assert RowOf(t, M1).bucket == Minute(t.timestamp);
    if j :| j in trades && trades[j].block > b && Minute(trades[j].timestamp) <= Bucket(t.timestamp, D1) {
      forall r ensures CandleSelected(RowOf(t, r), trades, b) {
        DayStartsFirst(t.timestamp, r);
      }
    } else {
      assert !CandleSelected(RowOf(t, D1), trades, b);
    }
  }

  /** A recovery cut short after k statements and run again from the start reaches the complete
      result, except when it was cut between the header delete and the checkpoint write: then
      the reorganisation is no longer seen, and the old checkpoint stays. */
  lemma ResumeRecovery(s: Store, incoming: Header, rpc: Rpc, k: nat)
    requires k <= RECOVERY_STATEMENTS
    requires ReorgSeen(s.headers, incoming)
    requires Ancestor(s.headers, incoming.number - 1, rpc).Some?
    ensures var a := Ancestor(s.headers, incoming.number - 1, rpc).value;
            var cut := Recovering(s, a, k);
            var again := if ReorgSeen(cut.headers, incoming) then Process(cut, incoming, rpc, COMPLETE) else cut;
            again == Recovered(s, a)
            <==> k != 5 || a >= incoming.number - 1 || s.checkpoint == Recovered(s, a).checkpoint
  {
    var n := incoming.number - 1;
    var a := Ancestor(s.headers, n, rpc).value;
    CutMeaning(s, a, k);
    RecoveryMeaning(Recovering(s, a, k), a);
    AncestorIsGreatestMatch(s.headers, n, rpc);
    AncestorAfterDelete(s.headers, n, rpc);
    TwiceIsOnce(s, a);
    hide Recovering;
  }

  lemma TwiceIsOnce(s: Store, a: int)
    ensures HeadersUpTo(HeadersUpTo(s.headers, a), a) == HeadersUpTo(s.headers, a)
    ensures TradesUpTo(TradesUpTo(s.trades, a), a) == TradesUpTo(s.trades, a)
    ensures FeesUpTo(FeesUpTo(s.fees, a), a) == FeesUpTo(s.fees, a)
    ensures AncestorHash(HeadersUpTo(s.headers, a), a) == AncestorHash(s.headers, a)
  {
  }

  lemma {:induction false} AncestorAfterDelete(headers: map<int, Header>, n: int, rpc: Rpc)
    requires Ancestor(headers, n, rpc).Some?
    ensures Ancestor(HeadersUpTo(headers, Ancestor(headers, n, rpc).value), n, rpc) == Ancestor(headers, n, rpc)
    decreases n
  {
    AncestorIsGreatestMatch(headers, n, rpc);
    if n > 0 && !Matches(headers, n, rpc) { AncestorAfterDelete(headers, n - 1, rpc); }
  }

  // ----- The header chain -----

  ghost predicate Linked(headers: map<int, Header>) {
    forall n :: n in headers && n + 1 in headers ==> headers[n + 1].parent == headers[n].hash
  }

  // ----- A block in the ordinary course -----

  /** Nothing stands in the block's way: the header below, if stored, is its parent, and no other header has
      its hash. */
  ghost predicate Undisturbed(headers: map<int, Header>, block: Header) {
    && (block.number - 1 in headers ==> headers[block.number - 1].hash == block.parent)
    && (block.number in headers || forall n :: n in headers ==> headers[n].hash != block.hash)
  }

  /** An undisturbed block is published, then stored if its height is new, then made the checkpoint, and
      nothing else changes; a failure keeps what was done before it. */
  lemma BlockTaken(s: Store, block: Header, rpc: Rpc, stop: nat)
    requires Undisturbed(s.headers, block)
    ensures var u := Process(s, block, rpc, stop);
            && u.published == (if stop >= 1 then s.published + {block.number} else s.published)
            && u.headers == (if stop >= 2 && block.number !in s.headers then s.headers[block.number := block] else s.headers)
            && u.checkpoint == (if stop >= 3 then Some(Checkpoint(block.number, block.hash)) else s.checkpoint)
            && u.trades == s.trades && u.candles == s.candles && u.positions == s.positions && u.fees == s.fees
  {
    hide Ancestor, Recovering;
    assert !ReorgSeen(s.headers, block) && !HashTaken(s.headers, block);
  }

  /** Heads that each extend the one before, from one that is undisturbed and above all that is stored. */
  ghost predicate ChainOfHeads(s: Store, xs: seq<Arrival>) {
    && (forall i :: 0 <= i < |xs| ==> xs[i].Head? && xs[i].stop >= 3)
    && (forall i :: 0 <= i < |xs| - 1 ==> xs[i + 1].block.number == xs[i].block.number + 1
                                          && xs[i + 1].block.parent == xs[i].block.hash)
    && (forall i, j :: 0 <= i < j < |xs| ==> xs[i].block.hash != xs[j].block.hash)
    && (forall i, n :: 0 <= i < |xs| && n in s.headers ==> s.headers[n].hash != xs[i].block.hash && n < xs[i].block.number)
    && (xs != [] && xs[0].block.number - 1 in s.headers ==> s.headers[xs[0].block.number - 1].hash == xs[0].block.parent)
  }

  predicate Holds(xs: seq<Arrival>, n: int) {
    exists i :: 0 <= i < |xs| && xs[i].block.number == n
  }

  /** Exactly these blocks have been published and stored on top, and no other table has changed. */
  ghost predicate Followed(s: Store, xs: seq<Arrival>, u: Store) {
    && (forall i :: 0 <= i < |xs| ==> Get(u.headers, xs[i].block.number) == Some(xs[i].block))
    && (forall n :: !Holds(xs, n) ==> Get(u.headers, n) == Get(s.headers, n))
    && (forall n :: n in u.published <==> n in s.published || Holds(xs, n))
    && u.trades == s.trades && u.candles == s.candles && u.positions == s.positions && u.fees == s.fees
  }

  /** Following the chain without failures: every head is published and stored, the checkpoint is the last
      head, and the other tables are left alone. */
  lemma {:induction false} HeadsFollowed(s: Store, xs: seq<Arrival>)
    requires ChainOfHeads(s, xs)
    ensures Followed(s, xs, ProcessAll(s, xs))
    ensures xs != [] ==> var last := xs[|xs| - 1].block;
                         ProcessAll(s, xs).checkpoint == Some(Checkpoint(last.number, last.hash))
  {
    if xs != [] {
      var front, x := xs[..|xs| - 1], xs[|xs| - 1];
      hide Process, ChainOfHeads, Followed;
      ShorterChain(s, xs);
      HeadsFollowed(s, front);
      var u := ProcessAll(s, front);
      NextFits(s, xs, u);
      BlockTaken(u, x.block, x.rpc, x.stop);
      FollowedNext(s, xs, u, ProcessAll(s, xs));
    } else {
      assert forall n :: !Holds(xs, n);
    }
  }

  lemma ShorterChain(s: Store, xs: seq<Arrival>)
    requires ChainOfHeads(s, xs) && xs != []
    ensures ChainOfHeads(s, xs[..|xs| - 1]) && xs[|xs| - 1].Head? && xs[|xs| - 1].stop >= 3
  {
  }

  lemma {:induction false} Ascending(s: Store, xs: seq<Arrival>, n: nat)
    requires ChainOfHeads(s, xs) && n < |xs|
    ensures forall i :: 0 <= i < n ==> xs[i].block.number < xs[n].block.number
  {
    if n > 0 {
      Ascending(s, xs, n - 1);
      assert xs[n - 1 + 1].block.number == xs[n - 1].block.number + 1;
    }
  }

  lemma NextFits(s: Store, xs: seq<Arrival>, u: Store)
    requires ChainOfHeads(s, xs) && xs != [] && Followed(s, xs[..|xs| - 1], u)
    ensures Undisturbed(u.headers, xs[|xs| - 1].block) && xs[|xs| - 1].block.number !in u.headers
  {
    var front, last, n := xs[..|xs| - 1], xs[|xs| - 1].block, |xs| - 1;
    Ascending(s, xs, n);
    forall m | m in u.headers ensures u.headers[m].hash != last.hash && m < last.number {
      if Holds(front, m) {
        var i :| 0 <= i < |front| && front[i].block.number == m;
        assert Get(u.headers, front[i].block.number) == Some(front[i].block) && front[i] == xs[i];
      } else {
        assert Get(u.headers, m) == Get(s.headers, m);
      }
    }
    if n > 0 {
      assert Get(u.headers, front[n - 1].block.number) == Some(front[n - 1].block) && front[n - 1] == xs[n - 1];
      assert xs[n - 1 + 1].block.parent == xs[n - 1].block.hash && xs[n - 1 + 1].block.number == xs[n - 1].block.number + 1;
    } else {
      assert !Holds(front, last.number - 1);
      assert Get(u.headers, last.number - 1) == Get(s.headers, last.number - 1);
    }
  }

  lemma FollowedNext(s: Store, xs: seq<Arrival>, u: Store, v: Store)
    requires xs != [] && Followed(s, xs[..|xs| - 1], u) && xs[|xs| - 1].block.number !in u.headers
    requires var block := xs[|xs| - 1].block;
             v.published == u.published + {block.number} && v.headers == u.headers[block.number := block]
    requires v.trades == u.trades && v.candles == u.candles && v.positions == u.positions && v.fees == u.fees
    ensures Followed(s, xs, v)
  {
    var front, n := xs[..|xs| - 1], |xs| - 1;
    forall m ensures Holds(xs, m) <==> Holds(front, m) || m == xs[n].block.number {
      if Holds(front, m) {
        var i :| 0 <= i < |front| && front[i].block.number == m;
        assert xs[i].block.number == m;
      }
      if Holds(xs, m) && m != xs[n].block.number {
        var i :| 0 <= i < |xs| && xs[i].block.number == m;
        assert front[i].block.number == m;
      }
    }
    forall i | 0 <= i < |xs| ensures Get(v.headers, xs[i].block.number) == Some(xs[i].block) {
      if i < n { assert Get(u.headers, front[i].block.number) == Some(front[i].block); }
    }
  }

  /** Every header is stored at its own height. */
  ghost predicate Numbered(headers: map<int, Header>) {
    forall n :: n in headers ==> headers[n].number == n
  }

  /** A header can be stored without breaking a link: it is linked to each neighbour that is stored. */
  predicate Fits(headers: map<int, Header>, block: Header) {
    && (block.number - 1 in headers ==> headers[block.number - 1].hash == block.parent)
    && (block.number + 1 in headers ==> headers[block.number + 1].parent == block.hash)
  }

  /** Storing a header at a new height keeps the links if and only if it fits. */
  lemma InsertKeepsLinks(headers: map<int, Header>, block: Header)
    requires Linked(headers)
    ensures Linked(InsertHeader(headers, block)) <==> block.number in headers || Fits(headers, block)
  {
    var n, after := block.number, InsertHeader(headers, block);
    if n !in headers {
      assert after == headers[n := block];
      assert n + 1 in headers ==> after[n + 1] == headers[n + 1] && after[n] == block;
      assert n - 1 in headers ==> after[n - 1] == headers[n - 1] && n - 1 + 1 == n;
      assert !Fits(headers, block) ==>
               || (n - 1 in after && n - 1 + 1 in after && after[n - 1 + 1].parent != after[n - 1].hash)
               || (n in after && n + 1 in after && after[n + 1].parent != after[n].hash);
    }
  }

  lemma RecoveryKeepsLinks(s: Store, a: int, k: nat)
    requires k <= RECOVERY_STATEMENTS
    ensures Linked(s.headers) ==> Linked(Recovering(s, a, k).headers)
    ensures Numbered(s.headers) ==> Numbered(Recovering(s, a, k).headers)
  {
    CutMeaning(s, a, k);
  }

  /** Recovery, complete or cut short, keeps the links; a block taken live keeps them if and only if it was
      not stored, was stored already, or the block above it, when stored, names it as parent. */
  lemma ProcessKeepsLinks(s: Store, block: Header, rpc: Rpc, stop: nat)
    requires Linked(s.headers)
    ensures Linked(Process(s, block, rpc, stop).headers)
            <==> || ReorgSeen(s.headers, block) || stop <= 1 || HashTaken(s.headers, block) || block.number in s.headers
                 || block.number + 1 !in s.headers || s.headers[block.number + 1].parent == block.hash
  {
    hide Ancestor, Recovering, HashTaken, Linked;
    if ReorgSeen(s.headers, block) {
      var a := Ancestor(s.headers, block.number - 1, rpc);
      if a.Some? { RecoveryKeepsLinks(s, a.value, Min(stop, RECOVERY_STATEMENTS)); }
    } else {
      InsertKeepsLinks(s.headers, block);
    }
  }

  /** Catch-up stores a header without looking at its parent. */
  function StoreUnchecked(s: Store, block: Header): Store {
    if HashTaken(s.headers, block) then s else s.(headers := InsertHeader(s.headers, block))
  }

  /** Storing unchecked keeps the links if and only if the block was refused, was stored already, or fits.
      So catch-up over a chain reorganised while the process was down breaks the chain at its first block,
      where the live path would have recovered. */
  lemma CatchUpKeepsLinks(s: Store, block: Header)
    requires Linked(s.headers)
    ensures Linked(StoreUnchecked(s, block).headers)
            <==> HashTaken(s.headers, block) || block.number in s.headers || Fits(s.headers, block)
    ensures Fits(s.headers, block) ==> !ReorgSeen(s.headers, block)
  {
    InsertKeepsLinks(s.headers, block);
  }

  /** A block reaches the store by the live path, perhaps cut short, or by catch-up. */
  datatype Arrival = Head(block: Header, rpc: Rpc, stop: nat) | CaughtUp(block: Header)

  function Arrive(s: Store, x: Arrival): Store {
    match x
    case Head(block, rpc, stop) => Process(s, block, rpc, stop)
    case CaughtUp(block) => StoreUnchecked(s, block)
  }

  function ProcessAll(s: Store, xs: seq<Arrival>): Store {
    if xs == [] then s else Arrive(ProcessAll(s, xs[..|xs| - 1]), xs[|xs| - 1])
  }

  /** The arrival stores nothing new, or something that fits. */
  predicate Admits(s: Store, x: Arrival) {
    || HashTaken(s.headers, x.block) || x.block.number in s.headers || Fits(s.headers, x.block)
    || (x.Head? && (x.stop <= 1 || ReorgSeen(s.headers, x.block)))
  }

  lemma ArriveKeepsLinks(s: Store, x: Arrival)
    requires Linked(s.headers)
    ensures Linked(Arrive(s, x).headers) <==> Admits(s, x)
  {
    hide HashTaken, Process, StoreUnchecked, Linked;
    match x
    case Head(block, rpc, stop) => ProcessKeepsLinks(s, block, rpc, stop);
    case CaughtUp(block) => CatchUpKeepsLinks(s, block);
  }

  ghost predicate AlwaysLinked(s: Store, xs: seq<Arrival>) {
    forall k :: 0 <= k <= |xs| ==> Linked(ProcessAll(s, xs[..k]).headers)
  }

  ghost predicate AlwaysAdmits(s: Store, xs: seq<Arrival>) {
    forall k :: 0 <= k < |xs| ==> Admits(ProcessAll(s, xs[..k]), xs[k])
  }

  lemma AlwaysNext(s: Store, xs: seq<Arrival>)
    requires xs != []
    ensures var front, n := xs[..|xs| - 1], |xs| - 1;
            && (AlwaysLinked(s, xs) <==> AlwaysLinked(s, front) && Linked(ProcessAll(s, xs).headers))
            && (AlwaysAdmits(s, xs) <==> AlwaysAdmits(s, front) && Admits(ProcessAll(s, front), xs[n]))
            && (AlwaysLinked(s, front) ==> Linked(ProcessAll(s, front).headers))
  {
    hide Linked, Admits, ProcessAll;
    var front, n := xs[..|xs| - 1], |xs| - 1;
    assert forall k :: 0 <= k <= n ==> xs[..k] == front[..k];
    assert front[..n] == front && xs[..n + 1] == xs;
    assert AlwaysLinked(s, xs) ==> Linked(ProcessAll(s, xs[..n + 1]).headers);
    assert AlwaysLinked(s, front) ==> Linked(ProcessAll(s, front[..n]).headers);
    assert AlwaysLinked(s, xs) ==> forall k :: 0 <= k <= n ==> Linked(ProcessAll(s, xs[..k]).headers);
    assert AlwaysAdmits(s, xs) ==> forall k :: 0 <= k < n ==> Admits(ProcessAll(s, xs[..k]), xs[k]);
  }

  /** In every run of catch-up and the live path, in any order of heights and through any number of
      reorganisations and failures, stored headers at adjacent heights are parent-linked throughout if and
      only if every block that was stored fitted when it was; and headers stay at their own heights. */
  lemma {:induction false} RunKeepsLinks(s: Store, xs: seq<Arrival>)
    requires Linked(s.headers)
    ensures AlwaysLinked(s, xs) <==> AlwaysAdmits(s, xs)
    ensures Numbered(s.headers) ==> Numbered(ProcessAll(s, xs).headers)
  {
    hide Linked, Arrive, Admits, AlwaysLinked, AlwaysAdmits, Numbered;
    if xs == [] {
      AlwaysAtStart(s);
    } else {
      var front, n := xs[..|xs| - 1], |xs| - 1;
      RunKeepsLinks(s, front);
      AlwaysNext(s, xs);
      if Numbered(s.headers) { ArriveNumbered(ProcessAll(s, front), xs[n]); }
      if AlwaysLinked(s, front) { ArriveKeepsLinks(ProcessAll(s, front), xs[n]); }
    }
  }

  lemma AlwaysAtStart(s: Store)
    ensures AlwaysLinked(s, []) <==> Linked(s.headers)
    ensures AlwaysAdmits(s, [])
  {
    var none: seq<Arrival> := [];
    assert none[..0] == none;
    assert AlwaysLinked(s, none) ==> Linked(ProcessAll(s, none[..0]).headers);
  }

  lemma ArriveNumbered(s: Store, x: Arrival)
    requires Numbered(s.headers)
    ensures Numbered(Arrive(s, x).headers)
  {
    hide Ancestor, HashTaken, Recovering;
    if x.Head? && ReorgSeen(s.headers, x.block) {
      var a := Ancestor(s.headers, x.block.number - 1, x.rpc);
      if a.Some? { RecoveryKeepsLinks(s, a.value, Min(x.stop, RECOVERY_STATEMENTS)); }
    }
  }

  /** The live path alone: in every run of heads each above all that is stored, through any number of
      reorganisations and failures (and with blocks caught up between them as long as their parents match),
      stored headers at adjacent heights are always parent-linked. */
  lemma HeadsKeepLinks(s: Store, xs: seq<Arrival>)
    requires Linked(s.headers)
    requires forall k :: 0 <= k < |xs| ==>
               var before := ProcessAll(s, xs[..k]).headers;
               && (xs[k].Head? || !ReorgSeen(before, xs[k].block))
               && forall n :: n in before ==> n < xs[k].block.number
    ensures AlwaysLinked(s, xs)
  {
    hide Linked, ProcessAll, Admits, ReorgSeen;
    RunKeepsLinks(s, xs);
    forall k | 0 <= k < |xs| ensures Admits(ProcessAll(s, xs[..k]), xs[k]) {
      TopAdmitted(ProcessAll(s, xs[..k]), xs[k]);
    }
  }

  lemma TopAdmitted(s: Store, x: Arrival)
    requires (x.Head? || !ReorgSeen(s.headers, x.block)) && forall n :: n in s.headers ==> n < x.block.number
    ensures Admits(s, x)
  {
    hide HashTaken;
  }

  /** Blocks of one chain, caught up. */
  ghost predicate OfChain(chain: int -> Header, xs: seq<Arrival>) {
    && (forall n :: chain(n).number == n && chain(n + 1).parent == chain(n).hash)
    && (forall i :: 0 <= i < |xs| ==> xs[i].CaughtUp? && xs[i].block == chain(xs[i].block.number))
  }

  /** What is stored at or next to these heights is the chain's. */
  ghost predicate StoredFrom(headers: map<int, Header>, chain: int -> Header, xs: seq<Arrival>) {
    forall n, i :: n in headers && 0 <= i < |xs| && xs[i].block.number - 1 <= n <= xs[i].block.number + 1 ==> headers[n] == chain(n)
  }

  /** The headers of a chunk are stored concurrently. Whatever the order, the links hold throughout, as long
      as what is stored already at or next to the chunk's heights is of the same chain. */
  lemma {:induction false} ChunkInAnyOrder(s: Store, chain: int -> Header, xs: seq<Arrival>, all: seq<Arrival>)
    requires Linked(s.headers) && OfChain(chain, all) && StoredFrom(s.headers, chain, all) && xs <= all
    ensures AlwaysLinked(s, xs) && StoredFrom(ProcessAll(s, xs).headers, chain, all)
  {
    hide Linked, Arrive, Admits, AlwaysLinked, OfChain, StoredFrom;
    if xs == [] {
      AlwaysAtStart(s);
    } else {
      var front, n := xs[..|xs| - 1], |xs| - 1;
      ChunkInAnyOrder(s, chain, front, all);
      assert xs[n] == all[n];
      AlwaysNext(s, xs);
      ChunkStep(ProcessAll(s, front), chain, all, n);
      ArriveKeepsLinks(ProcessAll(s, front), xs[n]);
    }
  }

  lemma ChunkStep(u: Store, chain: int -> Header, all: seq<Arrival>, n: nat)
    requires n < |all| && OfChain(chain, all) && StoredFrom(u.headers, chain, all)
    ensures Admits(u, all[n]) && StoredFrom(Arrive(u, all[n]).headers, chain, all)
  {
    hide HashTaken;
    var b := all[n].block;
    assert all[n].CaughtUp? && b == chain(b.number);
    assert chain(b.number - 1 + 1).parent == chain(b.number - 1).hash;
    assert chain(b.number + 1).parent == b.hash;
  }

  /** The canonical chain: linked, and a hash determines its header. */
  ghost predicate Canonical(headers: map<int, Header>, chain: int -> Header) {
    && (forall n :: chain(n + 1).parent == chain(n).hash)
    && (forall n, m :: n in headers && headers[n].hash == chain(m).hash ==> headers[n] == chain(m))
  }

  lemma {:induction false} CanonicalBelow(headers: map<int, Header>, chain: int -> Header, a: int, k: int)
    requires Linked(headers) && Canonical(headers, chain)
    requires k <= a && forall n :: k <= n <= a ==> n in headers
    requires headers[a].hash == chain(a).hash
    ensures headers[k] == chain(k)
    decreases a - k
  {
    if k < a {
      CanonicalBelow(headers, chain, a, k + 1);
      assert chain(k + 1).parent == chain(k).hash;
      assert headers[k].hash == chain(k).hash;
    }
  }

  /** Backtrace correctness against the canonical chain: nothing stored above the result (up to the
      start) is canonical, and every stored header in the contiguous run down from it is. */
  lemma BacktraceFindsFork(headers: map<int, Header>, chain: int -> Header, start: int, k: int)
    requires Linked(headers) && Canonical(headers, chain)
    ensures var r := Ancestor(headers, start, n => Some(chain(n)));
            && r.Some? && r.value >= 0
            && (forall n :: r.value < n <= start && n in headers ==> headers[n] != chain(n))
            && (0 < r.value && k <= r.value && (forall n :: k <= n <= r.value ==> n in headers) ==> headers[k] == chain(k))
  {
    var rpc: Rpc := n => Some(chain(n));
    AncestorIsGreatestMatch(headers, start, rpc);
    var a := Ancestor(headers, start, rpc).value;
    forall n | a < n <= start && n in headers ensures headers[n] != chain(n) {
      assert !Matches(headers, n, rpc);
    }
    if 0 < a && k <= a && forall n :: k <= n <= a ==> n in headers {
      assert Matches(headers, a, rpc);
      CanonicalBelow(headers, chain, a, k);
    }
  }

  /** After a reorganisation is seen at block n and recovered to a, the live path drops block n; the
      next block is accepted without any check and moves the checkpoint past the whole orphaned
      range, of which nothing is published again or stored. */
  lemma OrphanedRangeSkipped(s: Store, block: Header, next: Header, rpc: Rpc, rpc': Rpc)
    requires block.number > 0 && next.number == block.number + 1
    requires ReorgSeen(s.headers, block) && Ancestor(s.headers, block.number - 1, rpc).Some?
    requires forall n :: n in s.headers ==> s.headers[n].hash != next.hash
    ensures var a := Ancestor(s.headers, block.number - 1, rpc).value;
            var after := Process(Process(s, block, rpc, COMPLETE), next, rpc', COMPLETE);
            && after.checkpoint == Some(Checkpoint(next.number, next.hash))
            && after.published == s.published + {next.number}
            && forall n :: a < n <= block.number ==> n !in after.headers
  {
    var a := Ancestor(s.headers, block.number - 1, rpc).value;
    AncestorIsGreatestMatch(s.headers, block.number - 1, rpc);
    RecoveryMeaning(s, a);
    hide Recovering, Ancestor;
    var r := Recovered(s, a);
    assert Process(s, block, rpc, COMPLETE) == r;
    assert !ReorgSeen(r.headers, next) && !HashTaken(r.headers, next);
  }

  /** What comes after a recovery: a later head, or a restart that replays the blocks it finds lost from
      Redis and then finds the given head. */
  datatype After = LaterHead(number: int) | Restart(lost: seq<int>, head: int, batch: nat)

  function Then(log: CatchUp.Progress, next: After): CatchUp.Progress
    requires next.Restart? ==> next.batch > 0
  {
    match next
    case LaterHead(number) => CatchUp.Live(log, number)
    case Restart(lost, head, batch) => CatchUp.Start(log, CatchUp.Life(lost, head, CatchUp.NoCrash), batch)
  }

  /** When the orphaned range is published again, exactly. After a recovery to a > 0, a block above a and up
      to the one where the reorganisation was seen is published once more by what comes next if and only if
      that is a restart, for a head past a + 1 and at or above the block, and for a replay of the block. */
  lemma OrphanedRangeRestart(s: Store, block: Header, rpc: Rpc, log: CatchUp.Progress, next: After, n: int)
    requires ReorgSeen(s.headers, block) && Ancestor(s.headers, block.number - 1, rpc).Some?
    requires log.checkpoint == Some(Process(s, block, rpc, COMPLETE).checkpoint.value.block)
    requires 0 < Ancestor(s.headers, block.number - 1, rpc).value < n <= block.number
    requires if next.LaterHead? then next.number > block.number else next.batch > 0
    ensures var a := Ancestor(s.headers, block.number - 1, rpc).value;
            multiset(Then(log, next).published)[n]
            == multiset(log.published)[n]
               + (if next.Restart? && a + 1 < next.head && n <= next.head then 1 else 0)
               + if next.Restart? && CatchUp.Replayable(log, next.lost) && n in next.lost then 1 else 0
  {
    var a := Ancestor(s.headers, block.number - 1, rpc).value;
    RecoveryMeaning(s, a);
    assert log.checkpoint == Some(a);
    hide Recovering, Ancestor, Process, ReorgSeen, CatchUp.Start, CatchUp.Live;
    match next
    case LaterHead(number) => CatchUp.LiveCounts(log, number, n);
    case Restart(lost, head, batch) => CatchUp.RestartCounts(log, lost, head, batch, a, n);
  }
}
