/** Holder balances from ERC-20 transfers: the transactional, idempotent handler with its
    clamp at zero, and what the balances are worth over whole delivery histories. */
module Balances {
  import opened Base
  import opened Sums
  import opened Text

  const ZERO: string := "0x0000000000000000000000000000000000000000"

  datatype Transfer = Transfer(id: string, token: string, from: string, to: string,
                               value: nat, block: nat, txHash: string)

  datatype Holder = Holder(token: string, wallet: string)

  datatype BalanceRow = BalanceRow(balance: int, updatedBlock: nat)

  datatype Trade = Trade(txHash: string, token: string, isBuy: bool,
                         sender: Option<string>, recipient: Option<string>)

  datatype Tables = Tables(processed: set<string>, balances: map<Holder, BalanceRow>, trades: map<string, Trade>)

  /** INSERT ... ON CONFLICT DO UPDATE of one balance row, clamped by GREATEST(0, ...). */
  function Adjust(balances: map<Holder, BalanceRow>, h: Holder, delta: int, block: nat): map<Holder, BalanceRow> {
    balances[h := if h in balances
                  then BalanceRow(Max(0, balances[h].balance + delta), Max(balances[h].updatedBlock, block))
                  else BalanceRow(Max(0, delta), block)]
  }

  function FillTrade(t: Trade, from: string, to: string): Trade {
    t.(sender := if !t.isBuy && t.sender.None? then Some(from) else t.sender,
       recipient := if t.isBuy && t.recipient.None? then Some(to) else t.recipient)
  }

  function Backfill(trades: map<string, Trade>, txHash: string, token: string, from: string, to: string): map<string, Trade> {
    map id | id in trades ::
      if trades[id].txHash == txHash && trades[id].token == token then FillTrade(trades[id], from, to) else trades[id]
  }

  function Sender(e: Transfer): Holder { Holder(Lower(e.token), Lower(e.from)) }

  function Receiver(e: Transfer): Holder { Holder(Lower(e.token), Lower(e.to)) }

  predicate Debits(e: Transfer) { Lower(e.from) != ZERO }

  predicate Credits(e: Transfer) { Lower(e.to) != ZERO }

  function Debited(balances: map<Holder, BalanceRow>, e: Transfer): map<Holder, BalanceRow> {
    if Debits(e) then Adjust(balances, Sender(e), -(e.value as int), e.block) else balances
  }

  function Moved(balances: map<Holder, BalanceRow>, e: Transfer): map<Holder, BalanceRow> {
    var b := Debited(balances, e);
    if Credits(e) then Adjust(b, Receiver(e), e.value, e.block) else b
  }

  /** The effect of a transfer that is not yet processed. */
  function Effect(t: Tables, e: Transfer): Tables {
    Tables(t.processed + {e.id}, Moved(t.balances, e),
           if Debits(e) && Credits(e) then Backfill(t.trades, e.txHash, Lower(e.token), Lower(e.from), Lower(e.to))
           else t.trades)
  }

  /** A transaction can fail at any of its statements, or commit and lose the reply (of the commit or of
      a cache invalidation after it); the rollback of a duplicate can fail. */
  datatype Fault = NoFault | FailsAt(statement: nat) | ReplyLost | RollbackFails

  const COMMIT := 5

  predicate Commits(f: Fault) {
    f.FailsAt? ==> f.statement > COMMIT
  }

  class Postgres {
    var processed: set<string>
    var balances: map<Holder, BalanceRow>
    var trades: map<string, Trade>

    ghost function Contents(): Tables
      reads this
    {
      Tables(processed, balances, trades)
    }

    constructor (t: Tables)
      ensures Contents() == t
    {
      processed, balances, trades := t.processed, t.balances, t.trades;
    }

    /** One call of handle: BEGIN, claim the id, debit, credit, backfill, COMMIT. The working
        copies reach the tables only at the commit. `ok` is false when the call throws. */
    method Handle(e: Transfer, fault: Fault) returns (ok: bool)
      modifies this
      ensures Contents() == if Commits(fault) && e.id !in old(processed) then Effect(old(Contents()), e) else old(Contents())
      ensures ok ==> e.id in processed
      ensures fault.FailsAt? && fault.statement <= 5 ==> Contents() == old(Contents())
      ensures ok <==> if e.id in old(processed) then fault !in {FailsAt(0), FailsAt(1), RollbackFails}
                      else Commits(fault) && fault != ReplyLost
    {
      if fault == FailsAt(0) { return false; }
      var ids, rows, filled := processed, balances, trades;
      if fault == FailsAt(1) { return false; }
      if e.id in ids { return fault != RollbackFails; }
      ids := ids + {e.id};
      var token, from, to := Lower(e.token), Lower(e.from), Lower(e.to);
      if from != ZERO {
        if fault == FailsAt(2) { return false; }
        rows := Adjust(rows, Holder(token, from), -(e.value as int), e.block);
      }
      if to != ZERO {
        if fault == FailsAt(3) { return false; }
        rows := Adjust(rows, Holder(token, to), e.value, e.block);
      }
      if from != ZERO && to != ZERO {
        if fault == FailsAt(4) { return false; }
        filled := Backfill(filled, e.txHash, token, from, to);
      }
      if fault.FailsAt? && fault.statement <= COMMIT { return false; }
      processed, balances, trades := ids, rows, filled;
      ok := fault != ReplyLost;
    }
  }

  // ----- What one transfer does, from its own fields -----

  /** A row after one signed change, if it is changed at all: never below 0, and its block the highest. */
  function Changed(row: Option<BalanceRow>, applies: bool, delta: int, block: nat): Option<BalanceRow> {
    if !applies then row
    else if row.None? then Some(BalanceRow(if delta > 0 then delta else 0, block))
    else Some(BalanceRow(if row.value.balance + delta > 0 then row.value.balance + delta else 0,
                         if row.value.updatedBlock > block then row.value.updatedBlock else block))
  }

  /** The sender, unless it is the zero address, is debited; then the receiver, unless it is the zero address,
      is credited; every other row is left alone. */
  lemma OneTransfer(b: map<Holder, BalanceRow>, e: Transfer, g: Holder)
    ensures var token, from, to := Lower(e.token), Lower(e.from), Lower(e.to);
            var debited := Changed(Get(b, g), from != ZERO && g == Holder(token, from), -(e.value as int), e.block);
            Get(Moved(b, e), g) == Changed(debited, to != ZERO && g == Holder(token, to), e.value, e.block)
    ensures var token, from, to := Lower(e.token), Lower(e.from), Lower(e.to);
            var d := if from != ZERO && g == Holder(token, from) then Max(0, Balance(b, g) - e.value) else Balance(b, g);
            Balance(Moved(b, e), g) == if to != ZERO && g == Holder(token, to) then Max(0, d + e.value) else d
  {
    hide Lower;
  }

  /** What a transfer credits a holder, and what it debits. */
  function Credit(e: Transfer, h: Holder): nat {
    if Lower(e.token) == h.token && Lower(e.to) == h.wallet && Lower(e.to) != ZERO then e.value else 0
  }

  function Debit(e: Transfer, h: Holder): nat {
    if Lower(e.token) == h.token && Lower(e.from) == h.wallet && Lower(e.from) != ZERO then e.value else 0
  }

  function Credited(es: seq<Transfer>, h: Holder): nat {
    if es == [] then 0 else Credited(es[..|es| - 1], h) + Credit(es[|es| - 1], h)
  }

  function DebitedTotal(es: seq<Transfer>, h: Holder): nat {
    if es == [] then 0 else DebitedTotal(es[..|es| - 1], h) + Debit(es[|es| - 1], h)
  }

  lemma TotalJoin(a: seq<int>, b: seq<int>)
    ensures Total(a + b) == Total(a) + Total(b)
  {
    if b == [] {
      assert a + b == a;
    } else {
      TotalJoin(a, b[..|b| - 1]);
      assert (a + b)[..|a + b| - 1] == a + b[..|b| - 1];
    }
  }

  lemma DeltaTotal(e: Transfer, h: Holder)
    ensures Total(Deltas(e, h)) == Credit(e, h) - Debit(e, h)
  {
    var debit := if Debits(e) && Sender(e) == h then [-(e.value as int)] else [];
    var credit: seq<int> := if Credits(e) && Receiver(e) == h then [e.value] else [];
    TotalJoin(debit, credit);
    hide Lower;
    assert debit != [] ==> debit[..0] == [];
    assert credit != [] ==> credit[..0] == [];
  }

  /** The true balance of a holder: what the transfers to it carry minus what the transfers from it carry. */
  lemma {:induction false} TrueBalance(es: seq<Transfer>, h: Holder)
    ensures Total(AllDeltas(es, h)) == Credited(es, h) - DebitedTotal(es, h)
  {
    hide Credit, Debit, Deltas;
    if es != [] {
      TrueBalance(es[..|es| - 1], h);
      TotalJoin(AllDeltas(es[..|es| - 1], h), Deltas(es[|es| - 1], h));
      DeltaTotal(es[|es| - 1], h);
    }
  }

  predicate Party(e: Transfer, h: Holder) {
    Lower(e.token) == h.token && ((Lower(e.from) == h.wallet && Lower(e.from) != ZERO)
                                  || (Lower(e.to) == h.wallet && Lower(e.to) != ZERO))
  }

  /** A holder has a row exactly when it was party to a transfer, and the row's block is the highest of those. */
  lemma {:induction false} RowBlock(t: Tables, es: seq<Transfer>, h: Holder)
    requires t.balances == map[]
    ensures var b := ApplyAll(t, es).balances;
            && (h in b <==> exists e :: e in es && Party(e, h))
            && (h in b ==> (exists e :: e in es && Party(e, h) && e.block == b[h].updatedBlock)
                           && forall e :: e in es && Party(e, h) ==> e.block <= b[h].updatedBlock)
  {
    if es != [] {
      var front, e := es[..|es| - 1], es[|es| - 1];
      RowBlock(t, front, h);
      OneTransfer(ApplyAll(t, front).balances, e, h);
      hide Lower, Moved;
      assert forall x :: x in es <==> x in front || x == e;
      if Party(e, h) {
        assert e in es;
      }
    }
  }

  /** The backfill of one transfer between two wallets: on every trade of its transaction and token, a sale
      without a sender gets the transfer's sender, a purchase without a recipient its receiver. A mint or a
      burn fills nothing. */
  lemma BackfillMeaning(t: Tables, e: Transfer, id: string)
    requires id in t.trades
    ensures var from, to, trade := Lower(e.from), Lower(e.to), t.trades[id];
            var after := Effect(t, e).trades;
            var hit := trade.txHash == e.txHash && trade.token == Lower(e.token) && from != ZERO && to != ZERO;
            && id in after
            && after[id].sender == (if hit && !trade.isBuy && trade.sender == None then Some(from) else trade.sender)
            && after[id].recipient == (if hit && trade.isBuy && trade.recipient == None then Some(to) else trade.recipient)
            && after[id].(sender := None, recipient := None) == trade.(sender := None, recipient := None)
  {
    hide Lower, Moved;
  }

  // ----- Effectively once -----

  datatype Delivery = Delivery(e: Transfer, fault: Fault)

  /** What handling one delivery does to the tables (the contract of Handle). */
  function Deliver(t: Tables, d: Delivery): Tables {
    if Commits(d.fault) && d.e.id !in t.processed then Effect(t, d.e) else t
  }

  function DeliverAll(t: Tables, ds: seq<Delivery>): Tables {
    if ds == [] then t else Deliver(DeliverAll(t, ds[..|ds| - 1]), ds[|ds| - 1])
  }

  /** Delivery i is the first to commit its id, which was not processed before. */
  predicate FirstCommit(ds: seq<Delivery>, i: nat, before: set<string>)
    requires i < |ds|
  {
    && Commits(ds[i].fault)
    && ds[i].e.id !in before
    && forall j :: 0 <= j < i ==> !(Commits(ds[j].fault) && ds[j].e.id == ds[i].e.id)
  }

  /** The distinct events, in order of first commit. */
  function FirstCommits(ds: seq<Delivery>, before: set<string>): seq<Transfer> {
    if ds == [] then []
    else
      var es, n := FirstCommits(ds[..|ds| - 1], before), |ds| - 1;
      if FirstCommit(ds, n, before) then es + [ds[n].e] else es
  }

  function ApplyAll(t: Tables, es: seq<Transfer>): Tables {
    if es == [] then t else Effect(ApplyAll(t, es[..|es| - 1]), es[|es| - 1])
  }

  lemma {:induction false} ProcessedIds(t: Tables, ds: seq<Delivery>)
    ensures DeliverAll(t, ds).processed == t.processed + set d | d in ds && Commits(d.fault) :: d.e.id
  {
    if ds != [] {
      ProcessedIds(t, ds[..|ds| - 1]);
      assert forall d :: d in ds <==> d in ds[..|ds| - 1] || d == ds[|ds| - 1];
    }
  }

  /** Effectively once: any history of duplicated deliveries, with a rollback possible at any
      statement and a commit whose reply is lost, leaves the tables exactly as applying each
      distinct event once, in order of first commit; the processed ids are the committed ones. */
  lemma {:induction false} EffectivelyOnce(t: Tables, ds: seq<Delivery>)
    ensures DeliverAll(t, ds) == ApplyAll(t, FirstCommits(ds, t.processed))
    ensures DeliverAll(t, ds).processed == t.processed + set d | d in ds && Commits(d.fault) :: d.e.id
  {
    ProcessedIds(t, ds);
    if ds != [] {
      var front, n := ds[..|ds| - 1], |ds| - 1;
      EffectivelyOnce(t, front);
      var es := FirstCommits(front, t.processed);
      assert FirstCommit(ds, n, t.processed) <==> Commits(ds[n].fault) && ds[n].e.id !in DeliverAll(t, front).processed by {
        forall j | 0 <= j < n ensures ds[j] == front[j] && ds[j] in front {}
      }
      assert (es + [ds[n].e])[..|es|] == es;
    }
  }

  // ----- Reflection -----

  function Balance(balances: map<Holder, BalanceRow>, h: Holder): int {
    if h in balances then balances[h].balance else 0
  }

  /** The signed changes a transfer makes to one holder: the debit, then the credit. */
  function Deltas(e: Transfer, h: Holder): seq<int> {
    (if Debits(e) && Sender(e) == h then [-(e.value as int)] else []) + (if Credits(e) && Receiver(e) == h then [e.value] else [])
  }

  function AllDeltas(es: seq<Transfer>, h: Holder): seq<int> {
    if es == [] then [] else AllDeltas(es[..|es| - 1], h) + Deltas(es[|es| - 1], h)
  }

  /** The true balance: what the transfers credit minus what they debit. */
  function Total(ds: seq<int>): int {
    if ds == [] then 0 else Total(ds[..|ds| - 1]) + ds[|ds| - 1]
  }

  /** The stored balance as a fold of clamped additions. */
  function Clamped(ds: seq<int>): int {
    if ds == [] then 0 else Max(0, Clamped(ds[..|ds| - 1]) + ds[|ds| - 1])
  }

  /** The lowest prefix sum, the empty prefix included. */
  function Lowest(ds: seq<int>): (low: int)
    ensures exists k :: 0 <= k <= |ds| && low == Total(ds[..k])
    ensures forall k :: 0 <= k <= |ds| ==> low <= Total(ds[..k])
  {
    if ds == [] then
      assert Total(ds[..0]) == 0;
      0
    else
      var front := ds[..|ds| - 1];
      assert ds[..|ds|] == ds;
      assert forall k :: 0 <= k <= |front| ==> ds[..k] == front[..k];
      Min(Lowest(front), Total(ds))
  }

  ghost predicate NeverOverdrawn(ds: seq<int>) {
    forall k :: 0 <= k <= |ds| ==> Total(ds[..k]) >= 0
  }

  lemma {:induction false} Reflection(ds: seq<int>)
    ensures Clamped(ds) == Total(ds) - Lowest(ds)
  {
    if ds != [] { Reflection(ds[..|ds| - 1]); }
  }

  function Extend(ds: seq<int>, present: bool, d: int): seq<int> {
    if present then ds + [d] else ds
  }

  lemma ExtendFacts(ds: seq<int>, present: bool, d: int)
    ensures var s := Extend(ds, present, d); var x := if present then d else 0;
            && Total(s) == Total(ds) + x
            && (present ==> Clamped(s) == Max(0, Clamped(ds) + d))
            && (NeverOverdrawn(s) <==> NeverOverdrawn(ds) && Total(ds) + x >= 0)
  {
    var s := Extend(ds, present, d);
    assert s[..|s|] == s && ds[..|ds|] == ds;
    if present {
      assert s[..|s| - 1] == ds;
      assert forall k :: 0 <= k <= |ds| ==> s[..k] == ds[..k];
      assert Total(s[..|s|]) == Total(ds) + d;
    } else {
      assert NeverOverdrawn(ds) ==> Total(ds[..|ds|]) >= 0;
    }
  }

  /** A transfer extends a holder's history by its debit, then by its credit. */
  lemma SplitDeltas(ds: seq<int>, e: Transfer, h: Holder)
    ensures ds + Deltas(e, h)
            == Extend(Extend(ds, Debits(e) && Sender(e) == h, -(e.value as int)), Credits(e) && Receiver(e) == h, e.value)
  {
  }

  lemma BalanceAdjusted(balances: map<Holder, BalanceRow>, h: Holder, delta: int, block: nat, g: Holder)
    ensures Balance(Adjust(balances, h, delta, block), g)
            == if g == h then Max(0, Balance(balances, h) + delta) else Balance(balances, g)
  {
  }

  lemma DeltasApplied(ds: seq<int>, e: Transfer, h: Holder, balances: map<Holder, BalanceRow>)
    requires Balance(balances, h) == Clamped(ds)
    ensures Balance(Moved(balances, e), h) == Clamped(ds + Deltas(e, h))
  {
    hide NeverOverdrawn, Total, Deltas, Adjust, Balance, Sender, Receiver, Debits, Credits;
    var debit := Debits(e) && Sender(e) == h;
    BalanceAdjusted(balances, Sender(e), -(e.value as int), e.block, h);
    BalanceAdjusted(Debited(balances, e), Receiver(e), e.value, e.block, h);
    SplitDeltas(ds, e, h);
    ExtendFacts(ds, debit, -(e.value as int));
    ExtendFacts(Extend(ds, debit, -(e.value as int)), Credits(e) && Receiver(e) == h, e.value);
  }

  lemma {:induction false} BalanceIsClamped(t: Tables, es: seq<Transfer>, h: Holder)
    requires t.balances == map[]
    ensures Balance(ApplyAll(t, es).balances, h) == Clamped(AllDeltas(es, h))
  {
    if es != [] {
      var front := es[..|es| - 1];
      BalanceIsClamped(t, front, h);
      DeltasApplied(AllDeltas(front, h), es[|es| - 1], h, ApplyAll(t, front).balances);
    }
  }

  /** Reflection identity: after any sequence of transfers a stored balance is the true balance
      minus the lowest prefix sum (never above 0). So it is never negative, never below the true
      balance, and equal to it exactly when no prefix overdraws. */
  lemma StoredBalance(t: Tables, es: seq<Transfer>, h: Holder)
    requires t.balances == map[]
    ensures var stored, ds := Balance(ApplyAll(t, es).balances, h), AllDeltas(es, h);
            && Total(ds) == Credited(es, h) - DebitedTotal(es, h)
            && stored == Total(ds) - Lowest(ds)
            && stored >= 0 && stored >= Total(ds)
            && (stored == Total(ds) <==> NeverOverdrawn(ds))
  {
    var ds := AllDeltas(es, h);
    BalanceIsClamped(t, es, h);
    Reflection(ds);
    TrueBalance(es, h);
    assert ds[..|ds|] == ds && ds[..0] == [];
    assert Lowest(ds) <= Total(ds[..0]) == 0;
  }

  // ----- Supply -----

  function Minted(es: seq<Transfer>, token: string): nat {
    if es == [] then 0
    else Minted(es[..|es| - 1], token)
         + var e := es[|es| - 1]; if Lower(e.token) == token && !Debits(e) then e.value else 0
  }

  function Burned(es: seq<Transfer>, token: string): nat {
    if es == [] then 0
    else Burned(es[..|es| - 1], token)
         + var e := es[|es| - 1]; if Lower(e.token) == token && !Credits(e) then e.value else 0
  }

  /** What the clamp swallows: the uncovered part of every debit. */
  function Shortfall(t: Tables, es: seq<Transfer>, token: string): nat {
    if es == [] then 0
    else
      var front, e := es[..|es| - 1], es[|es| - 1];
      Shortfall(t, front, token)
      + if Lower(e.token) == token && Debits(e) then Max(0, e.value - Balance(ApplyAll(t, front).balances, Sender(e))) else 0
  }

  ghost function Holdings(balances: map<Holder, BalanceRow>, token: string): map<Holder, int> {
    map h | h in balances && h.token == token :: balances[h].balance
  }

  lemma AdjustSupply(balances: map<Holder, BalanceRow>, h: Holder, delta: int, block: nat, token: string)
    ensures Sum(Holdings(Adjust(balances, h, delta, block), token))
            == Sum(Holdings(balances, token))
               + if h.token == token then Max(0, Balance(balances, h) + delta) - Balance(balances, h) else 0
  {
    var after := Adjust(balances, h, delta, block);
    if h.token == token {
      assert Holdings(after, token) == Holdings(balances, token)[h := after[h].balance];
      SumUpdate(Holdings(balances, token), h, after[h].balance);
    } else {
      assert Holdings(after, token) == Holdings(balances, token);
    }
  }

  ghost predicate NonNegative(balances: map<Holder, BalanceRow>) {
    forall h :: h in balances ==> balances[h].balance >= 0
  }

  lemma AdjustNonNegative(balances: map<Holder, BalanceRow>, h: Holder, delta: int, block: nat)
    requires NonNegative(balances)
    ensures NonNegative(Adjust(balances, h, delta, block))
    ensures Balance(balances, h) >= 0
  {
  }

  lemma TransferSupply(b: map<Holder, BalanceRow>, e: Transfer, token: string)
    requires NonNegative(b)
    ensures NonNegative(Moved(b, e))
    ensures Sum(Holdings(Moved(b, e), token))
            == Sum(Holdings(b, token))
               + (if Lower(e.token) == token && !Debits(e) then e.value else 0)
               - (if Lower(e.token) == token && !Credits(e) then e.value else 0)
               + (if Lower(e.token) == token && Debits(e) then Max(0, e.value - Balance(b, Sender(e))) else 0)
  {
    hide Adjust, Holdings, Sum, Lower, Balance, NonNegative;
    AdjustSupply(b, Sender(e), -(e.value as int), e.block, token);
    AdjustNonNegative(b, Sender(e), -(e.value as int), e.block);
    var d := Debited(b, e);
    AdjustSupply(d, Receiver(e), e.value, e.block, token);
    AdjustNonNegative(d, Receiver(e), e.value, e.block);
  }

  /** Conservation of supply, exactly: in any history the balances of a token sum to
      minted minus burned plus the shortfall. */
  lemma {:induction false} SupplyLaw(t: Tables, es: seq<Transfer>, token: string)
    requires t.balances == map[]
    ensures NonNegative(ApplyAll(t, es).balances)
    ensures Sum(Holdings(ApplyAll(t, es).balances, token))
            == Minted(es, token) - Burned(es, token) + Shortfall(t, es, token)
  {
    if es == [] {
      assert Holdings(map[], token) == map[];
    } else {
      var front, e := es[..|es| - 1], es[|es| - 1];
      hide Moved, Holdings, Sum, Lower, Balance, NonNegative;
      SupplyLaw(t, front, token);
      TransferSupply(ApplyAll(t, front).balances, e, token);
    }
  }

  ghost predicate NoOverdraft(es: seq<Transfer>, token: string) {
    forall h: Holder :: h.token == token ==> NeverOverdrawn(AllDeltas(es, h))
  }

  lemma WholeNotOverdrawn(ds: seq<int>)
    requires NeverOverdrawn(ds)
    ensures Total(ds) >= 0
  {
    assert Total(ds[..|ds|]) >= 0;
    assert ds[..|ds|] == ds;
  }

  lemma StepOverdraft(ds: seq<int>, e: Transfer, h: Holder)
    requires NeverOverdrawn(ds)
    ensures NeverOverdrawn(ds + Deltas(e, h)) <==> (Debits(e) && Sender(e) == h ==> Total(ds) >= e.value)
  {
    hide *;
    WholeNotOverdrawn(ds);
    var debit := Debits(e) && Sender(e) == h;
    SplitDeltas(ds, e, h);
    ExtendFacts(ds, debit, -(e.value as int));
    ExtendFacts(Extend(ds, debit, -(e.value as int)), Credits(e) && Receiver(e) == h, e.value);
  }

  lemma PrefixOverdraft(ds: seq<int>, more: seq<int>)
    requires NeverOverdrawn(ds + more)
    ensures NeverOverdrawn(ds)
  {
    assert forall k :: 0 <= k <= |ds| ==> (ds + more)[..k] == ds[..k];
  }

  /** The shortfall is zero exactly when no holder of the token ever overdraws. */
  lemma {:induction false} ShortfallMeansOverdraft(t: Tables, es: seq<Transfer>, token: string)
    requires t.balances == map[]
    ensures Shortfall(t, es, token) == 0 <==> NoOverdraft(es, token)
  {
    if es == [] {
      assert Total([]) == 0;
      forall h: Holder ensures NeverOverdrawn(AllDeltas(es, h)) {}
    } else {
      var front, e := es[..|es| - 1], es[|es| - 1];
      ShortfallMeansOverdraft(t, front, token);
      if NoOverdraft(front, token) {
        forall h: Holder | h.token == token
          ensures NeverOverdrawn(AllDeltas(es, h)) <==>
                  (Debits(e) && Sender(e) == h ==> Balance(ApplyAll(t, front).balances, h) >= e.value)
        {
          StepOverdraft(AllDeltas(front, h), e, h);
          StoredBalance(t, front, h);
        }
        if Lower(e.token) == token && Debits(e) {
          assert NeverOverdrawn(AllDeltas(es, Sender(e))) <==>
                 Balance(ApplyAll(t, front).balances, Sender(e)) >= e.value;
        }
      } else {
        var h: Holder :| h.token == token && !NeverOverdrawn(AllDeltas(front, h));
        if NeverOverdrawn(AllDeltas(es, h)) {
          PrefixOverdraft(AllDeltas(front, h), Deltas(e, h));
        }
      }
    }
  }

  /** Supply conservation: the balances of a token never sum to less than minted minus burned,
      and to exactly that if and only if no holder ever overdraws. */
  lemma SupplyConserved(t: Tables, es: seq<Transfer>, token: string)
    requires t.balances == map[]
    ensures var supply := Sum(Holdings(ApplyAll(t, es).balances, token));
            && supply >= Minted(es, token) - Burned(es, token)
            && (supply == Minted(es, token) - Burned(es, token) <==> NoOverdraft(es, token))
  {
    SupplyLaw(t, es, token);
    ShortfallMeansOverdraft(t, es, token);
  }

  /** The backfill is write-once: a maker already recorded on a trade is never replaced,
      and no trade appears, disappears or changes anything else. */
  lemma {:induction false} MakersWrittenOnce(t: Tables, es: seq<Transfer>, id: string)
    requires id in t.trades
    ensures var u := ApplyAll(t, es).trades;
            && u.Keys == t.trades.Keys
            && (t.trades[id].sender.Some? ==> u[id].sender == t.trades[id].sender)
            && (t.trades[id].recipient.Some? ==> u[id].recipient == t.trades[id].recipient)
            && u[id].(sender := None, recipient := None) == t.trades[id].(sender := None, recipient := None)
            && (t.trades[id].isBuy ==> u[id].sender == t.trades[id].sender)
            && (!t.trades[id].isBuy ==> u[id].recipient == t.trades[id].recipient)
  {
    if es != [] { MakersWrittenOnce(t, es[..|es| - 1], id); }
  }
}
