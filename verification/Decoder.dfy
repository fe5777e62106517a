/** Log decoding: the priority dispatch with its in-place pool map, the scanner's two passes over a
    batch, and the price arithmetic of a swap. Topics are distinct values; the ABI-decoded arguments
    come with the log, which says whether decoding them succeeds. */
module Decoder {
  import opened Base
  import opened Arithmetic
  import opened Text

  datatype Topic =
    | PoolCreatedV1 | PoolCreatedV11 | PoolCreatedAny
    | PoolSwap | PoolStateUpdated | PoolFeesDistributed
    | FairLaunchCreated | FairLaunchEnded | FairLaunchBurn
    | BidWallInitialized | BidWallRepositioned | BidWallDeposit | BidWallClosed
    | FeeEscrowDeposit | FeeEscrowWithdrawal
    | ManagerDeployed
    | ManagerInitializedFeeSplit | ManagerInitializedStaking | ManagerInitializedRevenue
    | RevenueClaimed | RevenueManagerClaimed | TreasuryEscrowed | TreasuryReclaimed | CreatorUpdated
    | AnswerUpdated | Transfer | OtherTopic

  datatype Args = Args(poolId: string, token: string, manager: string, payload: string)

  datatype Log = Log(id: string, address: string, topicCount: nat, topic0: Topic, decodable: bool, args: Args)

  datatype Kind =
    | PoolCreated(version: Topic)
    | Swap | StateUpdated | FeesDistributed
    | Plain(topic: Topic)
    | Deployed
    | ERC721Transfer | ERC20Transfer

  /** An event carries its log's fields and, for swaps and fee distributions, the token of the pool. */
  datatype Event = Event(kind: Kind, log: Log, token: Option<string>)

  /** The contract address sets, in lower case. */
  datatype Contracts = Contracts(pmV1: set<string>, pmV11: set<string>, anyPm: set<string>,
                                 fairLaunch: set<string>, bidWall: set<string>, feeEscrow: set<string>,
                                 treasuryFactory: set<string>, chainlink: string, flaunchNft: set<string>)

  predicate BidWallTopic(t: Topic) {
    t in {BidWallInitialized, BidWallRepositioned, BidWallDeposit, BidWallClosed}
  }

  predicate ManagerTopic(t: Topic) {
    t in {ManagerInitializedFeeSplit, ManagerInitializedStaking, ManagerInitializedRevenue,
          RevenueClaimed, RevenueManagerClaimed, TreasuryEscrowed, TreasuryReclaimed, CreatorUpdated}
  }

  /** The dispatch: the first branch that matches topic and address, before any decoding. */
  function Classify(cs: Contracts, managers: set<string>, tokens: set<string>, l: Log): Option<Kind> {
    var address, t := Lower(l.address), l.topic0;
    if l.topicCount == 0 then None
    else if t == PoolCreatedV1 && address in cs.pmV1 then Some(PoolCreated(t))
    else if t == PoolCreatedV11 && address in cs.pmV11 then Some(PoolCreated(t))
    else if t == PoolCreatedAny && address in cs.anyPm then Some(PoolCreated(t))
    else if t == PoolSwap then Some(Swap)
    else if t == PoolStateUpdated then Some(StateUpdated)
    else if t == PoolFeesDistributed then Some(FeesDistributed)
    else if t == FairLaunchCreated && address in cs.fairLaunch then Some(Plain(t))
    else if t == FairLaunchEnded && address in cs.fairLaunch then Some(Plain(t))
    else if t == FairLaunchBurn && address in cs.pmV11 then Some(Plain(t))
    else if address in cs.bidWall && BidWallTopic(t) then Some(Plain(t))
    else if address in cs.feeEscrow && (t == FeeEscrowDeposit || t == FeeEscrowWithdrawal) then Some(Plain(t))
    else if t == ManagerDeployed && address in cs.treasuryFactory then Some(Deployed)
    else if address in managers && ManagerTopic(t) then Some(Plain(t))
    else if t == AnswerUpdated && address == cs.chainlink then Some(Plain(t))
    else if t == Transfer && l.topicCount == 4 && address in cs.flaunchNft then Some(ERC721Transfer)
    else if t == Transfer && l.topicCount == 3 && address in tokens then Some(ERC20Transfer)
    else None
  }

  type Pools = map<string, string>

  predicate NeedsToken(k: Kind) { k.Swap? || k.FeesDistributed? }

  /** decodeLog; a failure to decode is caught and gives nothing. */
  function Decode(cs: Contracts, managers: set<string>, tokens: set<string>, pools: Pools, l: Log): Option<Event> {
    var k := Classify(cs, managers, tokens, l);
    if k.None? || !l.decodable then None
    else Some(Event(k.value, l, if NeedsToken(k.value) then Get(pools, Lower(l.args.poolId)) else None))
  }

  /** Does the log register a pool? The dispatch takes these branches first, whatever the other sets hold. */
  predicate Creates(cs: Contracts, l: Log) {
    && l.decodable && l.topicCount > 0
    && var a := Lower(l.address);
       || (l.topic0 == PoolCreatedV1 && a in cs.pmV1)
       || (l.topic0 == PoolCreatedV11 && a in cs.pmV11)
       || (l.topic0 == PoolCreatedAny && a in cs.anyPm)
  }

  /** The pools created by a stretch of logs; the latest creation of an id wins. */
  function Created(cs: Contracts, ls: seq<Log>): Pools {
    if ls == [] then map[]
    else
      var m, l := Created(cs, ls[..|ls| - 1]), ls[|ls| - 1];
      if Creates(cs, l) then m[Lower(l.args.poolId) := Lower(l.args.token)] else m
  }

  /** One pass over a batch, log by log, as an outside observer sees it: each log is decoded against
      the starting map updated by the creations before it. */
  function Pass(cs: Contracts, managers: set<string>, tokens: set<string>, pools: Pools, ls: seq<Log>): (rs: seq<Option<Event>>)
    ensures |rs| == |ls|
  {
    seq(|ls|, i requires 0 <= i < |ls| => Decode(cs, managers, tokens, pools + Created(cs, ls[..i]), ls[i]))
  }

  function Present(rs: seq<Option<Event>>): seq<Event> {
    if rs == [] then []
    else
      var es := Present(rs[..|rs| - 1]);
      if rs[|rs| - 1].Some? then es + [rs[|rs| - 1].value] else es
  }

  const MANAGER_CAP := 50_000

  function AddManager(managers: set<string>, m: string): set<string> {
    if m in managers || |managers| >= MANAGER_CAP then managers else managers + {m}
  }

  function AddManagers(managers: set<string>, ms: seq<string>): set<string> {
    if ms == [] then managers else AddManager(AddManagers(managers, ms[..|ms| - 1]), ms[|ms| - 1])
  }

  predicate Deploys(cs: Contracts, l: Log) {
    l.decodable && l.topicCount > 0 && l.topic0 == ManagerDeployed && Lower(l.address) in cs.treasuryFactory
  }

  /** The managers deployed in a batch, in order. */
  function DeployedIn(cs: Contracts, ls: seq<Log>): seq<string> {
    if ls == [] then []
    else
      var ms := DeployedIn(cs, ls[..|ls| - 1]);
      if Deploys(cs, ls[|ls| - 1]) then ms + [Lower(ls[|ls| - 1].args.manager)] else ms
  }

  lemma DecodedKind(cs: Contracts, managers: set<string>, tokens: set<string>, pools: Pools, l: Log)
    ensures var r := Decode(cs, managers, tokens, pools, l);
            && (r.Some? && r.value.kind.PoolCreated? <==> Creates(cs, l))
            && (r.Some? && r.value.kind.Deployed? <==> Deploys(cs, l))
            && (r.Some? ==> r.value.log == l)
  {
  }

  class Scanner {
    const contracts: Contracts
    var poolIdToToken: Pools
    var dynamicManagers: set<string>
    var knownTokens: set<string>

    constructor (contracts: Contracts, pools: Pools, managers: set<string>, tokens: set<string>)
      ensures this.contracts == contracts
      ensures poolIdToToken == pools && dynamicManagers == managers && knownTokens == tokens
    {
      this.contracts := contracts;
      poolIdToToken, dynamicManagers, knownTokens := pools, managers, tokens;
    }

    /** decodeLog, branch by branch. The pool branches register the pool as they decode it. */
    method DecodeLog(l: Log) returns (e: Option<Event>)
      modifies this`poolIdToToken
      ensures e == Decode(contracts, dynamicManagers, knownTokens, old(poolIdToToken), l)
      ensures poolIdToToken == old(poolIdToToken) + Created(contracts, [l])
    {
      hide Lower;
      assert [l][..0] == [];
      if l.topicCount == 0 { return None; }
      var address, t := Lower(l.address), l.topic0;
      if t == PoolCreatedV1 && address in contracts.pmV1 {
        e := RegisterPool(l);
        return;
      }
      if t == PoolCreatedV11 && address in contracts.pmV11 {
        e := RegisterPool(l);
        return;
      }
      if t == PoolCreatedAny && address in contracts.anyPm {
        e := RegisterPool(l);
        return;
      }
      if !l.decodable { return None; }
      if t == PoolSwap { return Some(Event(Swap, l, Get(poolIdToToken, Lower(l.args.poolId)))); }
      if t == PoolStateUpdated { return Some(Event(StateUpdated, l, None)); }
      if t == PoolFeesDistributed { return Some(Event(FeesDistributed, l, Get(poolIdToToken, Lower(l.args.poolId)))); }
      e := DecodeByAddress(l, address);
    }

    method RegisterPool(l: Log) returns (e: Option<Event>)
      modifies this`poolIdToToken
      ensures e == if l.decodable then Some(Event(PoolCreated(l.topic0), l, None)) else None
      ensures poolIdToToken == if l.decodable then old(poolIdToToken)[Lower(l.args.poolId) := Lower(l.args.token)]
                               else old(poolIdToToken)
    {
      if !l.decodable { return None; }
      poolIdToToken := poolIdToToken[Lower(l.args.poolId) := Lower(l.args.token)];
      e := Some(Event(PoolCreated(l.topic0), l, None));
    }

    /** The branches that ask who emitted the log. */
    method DecodeByAddress(l: Log, address: string) returns (e: Option<Event>)
      requires l.topicCount > 0 && l.decodable && address == Lower(l.address)
      requires !Creates(contracts, l) && l.topic0 !in {PoolSwap, PoolStateUpdated, PoolFeesDistributed}
      ensures forall pools :: e == Decode(contracts, dynamicManagers, knownTokens, pools, l)
    {
      hide Lower;
      var t := l.topic0;
      if (t == FairLaunchCreated || t == FairLaunchEnded) && address in contracts.fairLaunch { return Some(Event(Plain(t), l, None)); }
      if t == FairLaunchBurn && address in contracts.pmV11 { return Some(Event(Plain(t), l, None)); }
      if address in contracts.bidWall {
        if BidWallTopic(t) { return Some(Event(Plain(t), l, None)); }
      }
      if address in contracts.feeEscrow {
        if t == FeeEscrowDeposit || t == FeeEscrowWithdrawal { return Some(Event(Plain(t), l, None)); }
      }
      if t == ManagerDeployed && address in contracts.treasuryFactory { return Some(Event(Deployed, l, None)); }
      if address in dynamicManagers {
        if ManagerTopic(t) { return Some(Event(Plain(t), l, None)); }
      }
      if t == AnswerUpdated && address == contracts.chainlink { return Some(Event(Plain(t), l, None)); }
      if t == Transfer && l.topicCount == 4 && address in contracts.flaunchNft { return Some(Event(ERC721Transfer, l, None)); }
      if t == Transfer && l.topicCount == 3 && address in knownTokens { return Some(Event(ERC20Transfer, l, None)); }
      e := None;
    }

    method DecodeLogs(logs: seq<Log>) returns (events: seq<Event>)
      modifies this`poolIdToToken
      ensures events == Present(Pass(contracts, dynamicManagers, knownTokens, old(poolIdToToken), logs))
      ensures poolIdToToken == old(poolIdToToken) + Created(contracts, logs)
    {
      hide Decode, Creates, Present, Created;
      events := [];
      NothingYet(contracts);
      ghost var rs := Pass(contracts, dynamicManagers, knownTokens, old(poolIdToToken), logs);
      for i := 0 to |logs|
        invariant events == Present(rs[..i])
        invariant poolIdToToken == old(poolIdToToken) + Created(contracts, logs[..i])
      {
        var e := DecodeLog(logs[i]);
        assert e == rs[i];
        CreatedOne(contracts, logs, i);
        Next(contracts, rs[..i], rs[i], logs[..i], logs[i]);
        assert rs[..i + 1] == rs[..i] + [rs[i]];
        if e.Some? { events := events + [e.value]; }
      }
      assert rs[..|logs|] == rs && logs[..|logs|] == logs;
    }

    method UpdateDynamicManagers(events: seq<Event>)
      modifies this`dynamicManagers
      ensures dynamicManagers == AddManagers(old(dynamicManagers), ManagersOf(events))
    {
      for i := 0 to |events|
        invariant dynamicManagers == AddManagers(old(dynamicManagers), ManagersOf(events[..i]))
      {
        var e := events[i];
        ghost var ms := ManagersOf(events[..i]);
        assert events[..i + 1] == events[..i] + [e];
        NextManager(old(dynamicManagers), events[..i], e);
        if e.kind.Deployed? {
          var m := Lower(e.log.args.manager);
          if m !in dynamicManagers {
            if |dynamicManagers| >= MANAGER_CAP { continue; }
            dynamicManagers := dynamicManagers + {m};
          }
        }
      }
      assert events[..|events|] == events;
    }

    method UpdatePoolMappings(events: seq<Event>)
      modifies this`poolIdToToken, this`knownTokens
      ensures Mappings(poolIdToToken, knownTokens) == Discover(Mappings(old(poolIdToToken), old(knownTokens)), events)
    {
      for i := 0 to |events|
        invariant Mappings(poolIdToToken, knownTokens) == Discover(Mappings(old(poolIdToToken), old(knownTokens)), events[..i])
      {
        var e := events[i];
        assert events[..i + 1][..i] == events[..i];
        if e.kind.PoolCreated? {
          var poolId, token := Lower(e.log.args.poolId), Lower(e.log.args.token);
          if poolId !in poolIdToToken {
            poolIdToToken := poolIdToToken[poolId := token];
            knownTokens := knownTokens + {token};
          }
        }
      }
      assert events[..|events|] == events;
    }

    /** The two passes of a batch. `extra` is what a fetch for newly known tokens would return; it plays
        no part, because the first pass never leaves a token for updatePoolMappings to discover. */
    method TwoPass(logs: seq<Log>, extra: seq<Log>) returns (decoded: seq<Event>)
      modifies this
      ensures knownTokens == old(knownTokens)
      ensures dynamicManagers == AddManagers(old(dynamicManagers), DeployedIn(contracts, logs))
      ensures poolIdToToken == old(poolIdToToken) + Created(contracts, logs)
      ensures decoded == Present(Pass(contracts, dynamicManagers, knownTokens, poolIdToToken, logs))
    {
      hide Decode, Creates, Pass;
      var tokensBefore := knownTokens;
      var firstPass := DecodeLogs(logs);
      FirstPassEvents(contracts, dynamicManagers, knownTokens, old(poolIdToToken), logs);
      UpdateDynamicManagers(firstPass);
      NothingDiscovered(Mappings(poolIdToToken, knownTokens), firstPass);
      UpdatePoolMappings(firstPass);
      var newTokens := knownTokens - tokensBefore;
      var allLogs := logs;
      if |newTokens| > 0 { allLogs := allLogs + extra; }
      assert newTokens == {};
      CreatedTwice(contracts, old(poolIdToToken), logs);
      decoded := DecodeLogs(allLogs);
    }
  }

  /** The pool map and the known tokens, as updatePoolMappings changes them. */
  datatype Mappings = Mappings(pools: Pools, tokens: set<string>)

  function Discover(m: Mappings, es: seq<Event>): Mappings {
    if es == [] then m
    else
      var d, e := Discover(m, es[..|es| - 1]), es[|es| - 1];
      var id, token := Lower(e.log.args.poolId), Lower(e.log.args.token);
      if e.kind.PoolCreated? && id !in d.pools then Mappings(d.pools[id := token], d.tokens + {token}) else d
  }

  /** When every created pool is mapped already, which is so right after the pass that decoded its
      creation, updatePoolMappings discovers neither a pool nor a token. */
  lemma {:induction false} NothingDiscovered(m: Mappings, es: seq<Event>)
    requires forall e :: e in es && e.kind.PoolCreated? ==> Lower(e.log.args.poolId) in m.pools
    ensures Discover(m, es) == m
  {
    if es != [] { NothingDiscovered(m, es[..|es| - 1]); }
  }

  function ManagersOf(es: seq<Event>): seq<string> {
    if es == [] then []
    else
      var ms := ManagersOf(es[..|es| - 1]);
      if es[|es| - 1].kind.Deployed? then ms + [Lower(es[|es| - 1].log.args.manager)] else ms
  }

  lemma NextManager(managers: set<string>, es: seq<Event>, e: Event)
    ensures AddManagers(managers, ManagersOf(es + [e]))
            == var before := AddManagers(managers, ManagersOf(es));
               if e.kind.Deployed? then AddManager(before, Lower(e.log.args.manager)) else before
  {
    var ms, m := ManagersOf(es), Lower(e.log.args.manager);
    assert (es + [e])[..|es|] == es && (ms + [m])[..|ms|] == ms;
  }

  lemma NothingYet(cs: Contracts)
    ensures Present([]) == [] && Created(cs, []) == map[]
  {
  }

  lemma CreatedOne(cs: Contracts, ls: seq<Log>, i: nat)
    requires i < |ls|
    ensures Created(cs, ls[..i + 1]) == Created(cs, ls[..i]) + Created(cs, [ls[i]])
  {
    assert ls[..i + 1][..i] == ls[..i] && [ls[i]][..0] == [];
  }

  lemma CreatedTwice(cs: Contracts, pools: Pools, ls: seq<Log>)
    ensures pools + Created(cs, ls) + Created(cs, ls) == pools + Created(cs, ls)
  {
  }

  /** One log at a time: what it adds to the events, the deployments and the creations. */
  lemma Next(cs: Contracts, rs: seq<Option<Event>>, r: Option<Event>, ls: seq<Log>, l: Log)
    ensures Present(rs + [r]) == if r.Some? then Present(rs) + [r.value] else Present(rs)
    ensures DeployedIn(cs, ls + [l]) == if Deploys(cs, l) then DeployedIn(cs, ls) + [Lower(l.args.manager)] else DeployedIn(cs, ls)
    ensures Created(cs, ls + [l])
            == if Creates(cs, l) then Created(cs, ls)[Lower(l.args.poolId) := Lower(l.args.token)] else Created(cs, ls)
  {
    assert (rs + [r])[..|rs|] == rs && (ls + [l])[..|ls|] == ls;
  }

  lemma ManagersNext(es: seq<Event>, e: Event)
    ensures ManagersOf(es + [e]) == if e.kind.Deployed? then ManagersOf(es) + [Lower(e.log.args.manager)] else ManagersOf(es)
  {
    assert (es + [e])[..|es|] == es;
  }

  /** The events of a pass tell the same deployments and creations as its logs. */
  ghost predicate Tells(cs: Contracts, es: seq<Event>, ls: seq<Log>) {
    && ManagersOf(es) == DeployedIn(cs, ls)
    && forall e :: e in es && e.kind.PoolCreated? ==> Lower(e.log.args.poolId) in Created(cs, ls)
  }

  lemma TellsNext(cs: Contracts, managers: set<string>, tokens: set<string>, pools: Pools,
                  rs: seq<Option<Event>>, ls: seq<Log>, l: Log)
    requires Tells(cs, Present(rs), ls)
    ensures Tells(cs, Present(rs + [Decode(cs, managers, tokens, pools, l)]), ls + [l])
  {
    var r := Decode(cs, managers, tokens, pools, l);
    DecodedKind(cs, managers, tokens, pools, l);
    Next(cs, rs, r, ls, l);
    if r.Some? { ManagersNext(Present(rs), r.value); }
    hide Decode, Creates, Deploys, Lower, Present, DeployedIn, Created, ManagersOf;
    assert forall e :: e in Present(rs + [r]) ==> e in Present(rs) || (r.Some? && e == r.value);
  }

  lemma PassAt(cs: Contracts, managers: set<string>, tokens: set<string>, pools: Pools, ls: seq<Log>, i: nat)
    requires i < |ls|
    ensures Pass(cs, managers, tokens, pools, ls)[i] == Decode(cs, managers, tokens, pools + Created(cs, ls[..i]), ls[i])
  {
    hide Decode, Created;
  }

  /** What a pass creates and deploys does not depend on the sets it was run with. */
  lemma {:induction false} PassEvents(cs: Contracts, managers: set<string>, tokens: set<string>, pools: Pools, ls: seq<Log>, n: nat)
    requires n <= |ls|
    ensures Tells(cs, Present(Pass(cs, managers, tokens, pools, ls)[..n]), ls[..n])
  {
    var rs := Pass(cs, managers, tokens, pools, ls);
    if n > 0 {
      hide *;
      PassEvents(cs, managers, tokens, pools, ls, n - 1);
      PassAt(cs, managers, tokens, pools, ls, n - 1);
      TellsNext(cs, managers, tokens, pools + Created(cs, ls[..n - 1]), rs[..n - 1], ls[..n - 1], ls[n - 1]);
      assert rs[..n] == rs[..n - 1] + [rs[n - 1]] && ls[..n] == ls[..n - 1] + [ls[n - 1]];
    }
  }

  lemma FirstPassEvents(cs: Contracts, managers: set<string>, tokens: set<string>, pools: Pools, ls: seq<Log>)
    ensures Tells(cs, Present(Pass(cs, managers, tokens, pools, ls)), ls)
  {
    var rs := Pass(cs, managers, tokens, pools, ls);
    PassEvents(cs, managers, tokens, pools, ls, |ls|);
    assert rs[..|ls|] == rs && ls[..|ls|] == ls;
  }

  // ----- Each operation from the log's own fields -----

  function When(taken: bool, k: Kind, l: Log, token: Option<string>): Option<Event> {
    if taken then Some(Event(k, l, token)) else None
  }

  /** The dispatch, topic by topic: which emitter each event is decoded for, as what, and with whose token.
      Nothing else is decoded. */
  lemma DispatchMeaning(cs: Contracts, managers: set<string>, tokens: set<string>, pools: Pools, l: Log)
    ensures var a, t, poolToken := Lower(l.address), l.topic0, Get(pools, Lower(l.args.poolId));
            Decode(cs, managers, tokens, pools, l)
            == if !l.decodable || l.topicCount == 0 then None
               else match t
                 case PoolCreatedV1 => When(a in cs.pmV1, PoolCreated(t), l, None)
                 case PoolCreatedV11 => When(a in cs.pmV11, PoolCreated(t), l, None)
                 case PoolCreatedAny => When(a in cs.anyPm, PoolCreated(t), l, None)
                 case PoolSwap => Some(Event(Swap, l, poolToken))
                 case PoolStateUpdated => Some(Event(StateUpdated, l, None))
                 case PoolFeesDistributed => Some(Event(FeesDistributed, l, poolToken))
                 case FairLaunchCreated => When(a in cs.fairLaunch, Plain(t), l, None)
                 case FairLaunchEnded => When(a in cs.fairLaunch, Plain(t), l, None)
                 case FairLaunchBurn => When(a in cs.pmV11, Plain(t), l, None)
                 case BidWallInitialized => When(a in cs.bidWall, Plain(t), l, None)
                 case BidWallRepositioned => When(a in cs.bidWall, Plain(t), l, None)
                 case BidWallDeposit => When(a in cs.bidWall, Plain(t), l, None)
                 case BidWallClosed => When(a in cs.bidWall, Plain(t), l, None)
                 case FeeEscrowDeposit => When(a in cs.feeEscrow, Plain(t), l, None)
                 case FeeEscrowWithdrawal => When(a in cs.feeEscrow, Plain(t), l, None)
                 case ManagerDeployed => When(a in cs.treasuryFactory, Deployed, l, None)
                 case ManagerInitializedFeeSplit => When(a in managers, Plain(t), l, None)
                 case ManagerInitializedStaking => When(a in managers, Plain(t), l, None)
                 case ManagerInitializedRevenue => When(a in managers, Plain(t), l, None)
                 case RevenueClaimed => When(a in managers, Plain(t), l, None)
                 case RevenueManagerClaimed => When(a in managers, Plain(t), l, None)
                 case TreasuryEscrowed => When(a in managers, Plain(t), l, None)
                 case TreasuryReclaimed => When(a in managers, Plain(t), l, None)
                 case CreatorUpdated => When(a in managers, Plain(t), l, None)
                 case AnswerUpdated => When(a == cs.chainlink, Plain(t), l, None)
                 case Transfer =>
                   if l.topicCount == 4 then When(a in cs.flaunchNft, ERC721Transfer, l, None)
                   else When(l.topicCount == 3 && a in tokens, ERC20Transfer, l, None)
                 case OtherTopic => None
  {
    hide Lower, Decode;
    if l.topic0 in {PoolCreatedV1, PoolCreatedV11, PoolCreatedAny, PoolSwap, PoolStateUpdated, PoolFeesDistributed} {
      DispatchPools(cs, managers, tokens, pools, l);
    } else if ManagerTopic(l.topic0) {
      DispatchManagers(cs, managers, tokens, pools, l);
    } else {
      DispatchOthers(cs, managers, tokens, pools, l);
    }
  }

  lemma DispatchPools(cs: Contracts, managers: set<string>, tokens: set<string>, pools: Pools, l: Log)
    requires l.topic0 in {PoolCreatedV1, PoolCreatedV11, PoolCreatedAny, PoolSwap, PoolStateUpdated, PoolFeesDistributed}
    ensures var a, t, poolToken := Lower(l.address), l.topic0, Get(pools, Lower(l.args.poolId));
            Decode(cs, managers, tokens, pools, l)
            == if !l.decodable || l.topicCount == 0 then None
               else match t
                 case PoolCreatedV1 => When(a in cs.pmV1, PoolCreated(t), l, None)
                 case PoolCreatedV11 => When(a in cs.pmV11, PoolCreated(t), l, None)
                 case PoolCreatedAny => When(a in cs.anyPm, PoolCreated(t), l, None)
                 case PoolSwap => Some(Event(Swap, l, poolToken))
                 case PoolStateUpdated => Some(Event(StateUpdated, l, None))
                 case _ => Some(Event(FeesDistributed, l, poolToken))
  {
    hide Lower;
  }

  lemma DispatchManagers(cs: Contracts, managers: set<string>, tokens: set<string>, pools: Pools, l: Log)
    requires ManagerTopic(l.topic0)
    ensures Decode(cs, managers, tokens, pools, l)
            == When(l.decodable && l.topicCount > 0 && Lower(l.address) in managers, Plain(l.topic0), l, None)
  {
    hide Lower;
  }

  lemma DispatchOthers(cs: Contracts, managers: set<string>, tokens: set<string>, pools: Pools, l: Log)
    requires l.topic0 !in {PoolCreatedV1, PoolCreatedV11, PoolCreatedAny, PoolSwap, PoolStateUpdated, PoolFeesDistributed}
    requires !ManagerTopic(l.topic0)
    ensures var a, t := Lower(l.address), l.topic0;
            Decode(cs, managers, tokens, pools, l)
            == if !l.decodable || l.topicCount == 0 then None
               else match t
                 case FairLaunchCreated => When(a in cs.fairLaunch, Plain(t), l, None)
                 case FairLaunchEnded => When(a in cs.fairLaunch, Plain(t), l, None)
                 case FairLaunchBurn => When(a in cs.pmV11, Plain(t), l, None)
                 case FeeEscrowDeposit => When(a in cs.feeEscrow, Plain(t), l, None)
                 case FeeEscrowWithdrawal => When(a in cs.feeEscrow, Plain(t), l, None)
                 case ManagerDeployed => When(a in cs.treasuryFactory, Deployed, l, None)
                 case AnswerUpdated => When(a == cs.chainlink, Plain(t), l, None)
                 case Transfer =>
                   if l.topicCount == 4 then When(a in cs.flaunchNft, ERC721Transfer, l, None)
                   else When(l.topicCount == 3 && a in tokens, ERC20Transfer, l, None)
                 case OtherTopic => None
                 case _ => When(a in cs.bidWall, Plain(t), l, None)
  {
    hide Lower;
  }

  /** Does the log create this pool? */
  predicate CreatesPool(cs: Contracts, l: Log, id: string) {
    && l.decodable && l.topicCount > 0 && Lower(l.args.poolId) == id
    && ((l.topic0 == PoolCreatedV1 && Lower(l.address) in cs.pmV1)
        || (l.topic0 == PoolCreatedV11 && Lower(l.address) in cs.pmV11)
        || (l.topic0 == PoolCreatedAny && Lower(l.address) in cs.anyPm))
  }

  /** The token of the last log that creates the pool. */
  function LastToken(cs: Contracts, ls: seq<Log>, id: string): Option<string> {
    if ls == [] then None
    else if CreatesPool(cs, ls[|ls| - 1], id) then Some(Lower(ls[|ls| - 1].args.token))
    else LastToken(cs, ls[..|ls| - 1], id)
  }

  ghost predicate LastCreator(cs: Contracts, ls: seq<Log>, id: string, i: nat) {
    i < |ls| && CreatesPool(cs, ls[i], id) && forall j :: i < j < |ls| ==> !CreatesPool(cs, ls[j], id)
  }

  lemma {:induction false} LastTokenMeaning(cs: Contracts, ls: seq<Log>, id: string)
    ensures LastToken(cs, ls, id).None? <==> forall i :: 0 <= i < |ls| ==> !CreatesPool(cs, ls[i], id)
    ensures forall i: nat :: LastCreator(cs, ls, id, i) ==> LastToken(cs, ls, id) == Some(Lower(ls[i].args.token))
  {
    hide Lower, CreatesPool;
    if ls != [] {
      var front, n := ls[..|ls| - 1], |ls| - 1;
      LastTokenMeaning(cs, front, id);
      assert forall i :: 0 <= i < n ==> front[i] == ls[i];
      forall i: nat | LastCreator(cs, ls, id, i) ensures LastToken(cs, ls, id) == Some(Lower(ls[i].args.token)) {
        if i < n { assert LastCreator(cs, front, id, i); }
      }
    }
  }

  /** A pass registers every pool some log creates, with the token of the last that does, and no other. */
  lemma {:induction false} CreatedMeaning(cs: Contracts, ls: seq<Log>, id: string)
    ensures Get(Created(cs, ls), id) == LastToken(cs, ls, id)
    ensures id in Created(cs, ls) <==> exists i :: 0 <= i < |ls| && CreatesPool(cs, ls[i], id)
    ensures forall i: nat :: LastCreator(cs, ls, id, i) ==> Get(Created(cs, ls), id) == Some(Lower(ls[i].args.token))
  {
    LastTokenMeaning(cs, ls, id);
    CreatedTokens(cs, ls, id);
    hide Lower, LastToken, Created, CreatesPool;
  }

  lemma {:induction false} CreatedTokens(cs: Contracts, ls: seq<Log>, id: string)
    ensures Get(Created(cs, ls), id) == LastToken(cs, ls, id)
  {
    hide Lower;
    if ls != [] { CreatedTokens(cs, ls[..|ls| - 1], id); }
  }

  /** Does the log deploy this manager? */
  predicate DeploysManager(cs: Contracts, l: Log, m: string) {
    l.decodable && l.topicCount > 0 && l.topic0 == ManagerDeployed && Lower(l.address) in cs.treasuryFactory
    && Lower(l.args.manager) == m
  }

  lemma {:induction false} DeployedMeaning(cs: Contracts, ls: seq<Log>, m: string)
    ensures m in DeployedIn(cs, ls) <==> exists i :: 0 <= i < |ls| && DeploysManager(cs, ls[i], m)
  {
    hide Lower;
    if ls != [] {
      var front, n := ls[..|ls| - 1], |ls| - 1;
      DeployedMeaning(cs, front, m);
      assert forall i :: 0 <= i < n ==> front[i] == ls[i];
      if DeploysManager(cs, ls[n], m) { assert DeployedIn(cs, ls) == DeployedIn(cs, front) + [m]; }
    }
  }

  /** The managers after an update: the old ones, and new ones only from the list; all of the list while they
      fit under the cap, which is never passed. */
  lemma {:induction false} AddedManagers(managers: set<string>, ms: seq<string>)
    ensures var all := AddManagers(managers, ms);
            && managers <= all <= managers + Listed(ms)
            && (|managers| <= 50_000 ==> |all| <= 50_000)
            && (all == managers + Listed(ms) || |all| >= 50_000)
            && (|managers + Listed(ms)| <= 50_000 ==> all == managers + Listed(ms))
  {
    if ms != [] {
      AddedManagers(managers, ms[..|ms| - 1]);
      ListedNext(ms);
    } else {
      assert managers + Listed(ms) == managers;
    }
    hide Listed;
    EqualAtCap(AddManagers(managers, ms), managers + Listed(ms));
  }

  ghost function Listed(ms: seq<string>): set<string> {
    set m | m in ms
  }

  lemma ListedNext(ms: seq<string>)
    requires ms != []
    ensures Listed(ms) == Listed(ms[..|ms| - 1]) + {ms[|ms| - 1]}
  {
    assert forall m :: m in ms <==> m in ms[..|ms| - 1] || m == ms[|ms| - 1];
  }

  lemma EqualAtCap(a: set<string>, b: set<string>)
    requires a <= b && (a == b || |a| >= MANAGER_CAP)
    ensures |b| <= MANAGER_CAP ==> a == b
  {
    assert b == a + (b - a);
    assert |b| == |a| + |b - a|;
  }

  /** The published events are the decoded ones, all of them and in order. */
  lemma {:induction false} PresentMeaning(a: seq<Option<Event>>, b: seq<Option<Event>>)
    ensures Present(a + b) == Present(a) + Present(b)
  {
    if b == [] {
      assert a + b == a && Present(b) == [];
    } else {
      var front, r := b[..|b| - 1], b[|b| - 1];
      hide Present;
      PresentMeaning(a, front);
      PresentNext(a + front, r);
      PresentNext(front, r);
      assert a + b == a + front + [r] && b == front + [r];
    }
  }

  lemma PresentNext(a: seq<Option<Event>>, r: Option<Event>)
    ensures Present(a + [r]) == if r.Some? then Present(a) + [r.value] else Present(a)
    ensures Present([r]) == if r.Some? then [r.value] else []
  {
    assert (a + [r])[..|a|] == a && [r][..0] == [];
  }

  /** Does the event announce this pool? */
  predicate Announces(e: Event, id: string) {
    e.kind.PoolCreated? && Lower(e.log.args.poolId) == id
  }

  /** The token of the first event that announces the pool. */
  function FirstToken(es: seq<Event>, id: string): (t: Option<string>)
    ensures t.None? <==> forall i :: 0 <= i < |es| ==> !Announces(es[i], id)
    ensures t.Some? ==> exists i :: 0 <= i < |es| && Announces(es[i], id) && t.value == Lower(es[i].log.args.token)
                                   && forall j :: 0 <= j < i ==> !Announces(es[j], id)
  {
    hide Lower, Announces;
    if es == [] then None
    else
      var n := |es| - 1;
      var before := FirstToken(es[..n], id);
      assert forall i :: 0 <= i < n ==> es[..n][i] == es[i];
      if before.Some? then before else if Announces(es[n], id) then Some(Lower(es[n].log.args.token)) else None
  }

  /** updatePoolMappings: a pool that is not mapped gets the token of the first event that announces it, and
      that token becomes known; a mapped one is left alone. */
  lemma {:induction false} DiscoverMeaning(m: Mappings, es: seq<Event>, id: string)
    ensures var d := Discover(m, es);
            && Get(d.pools, id) == (if id in m.pools then Some(m.pools[id]) else FirstToken(es, id))
            && (id in d.pools && id !in m.pools ==> d.pools[id] in d.tokens)
            && m.tokens <= d.tokens
  {
    hide Lower;
    if es != [] { DiscoverMeaning(m, es[..|es| - 1], id); }
  }

  lemma {:induction false} DiscoveredTokens(m: Mappings, es: seq<Event>, token: string)
    requires token in Discover(m, es).tokens && token !in m.tokens
    ensures exists i :: 0 <= i < |es| && es[i].kind.PoolCreated? && Lower(es[i].log.args.token) == token
                        && Lower(es[i].log.args.poolId) !in m.pools
  {
    hide Lower;
    var front, n := es[..|es| - 1], |es| - 1;
    if token in Discover(m, front).tokens {
      DiscoveredTokens(m, front, token);
      var i :| 0 <= i < |front| && front[i].kind.PoolCreated? && Lower(front[i].log.args.token) == token
               && Lower(front[i].log.args.poolId) !in m.pools;
      assert front[i] == es[i];
    } else {
      DiscoverMeaning(m, front, Lower(es[n].log.args.poolId));
      assert es[n].kind.PoolCreated? && Lower(es[n].log.args.token) == token;
    }
  }

  // ----- What the second pass adds, and that a third adds nothing -----

  lemma {:induction false} ManagersStable(managers: set<string>, ms: seq<string>, k: nat)
    requires k <= |ms|
    ensures managers <= AddManagers(managers, ms[..k]) <= AddManagers(managers, ms)
    ensures AddManagers(AddManagers(managers, ms), ms[..k]) == AddManagers(managers, ms)
  {
    AddMore(managers, ms, k);
    if k > 0 {
      ManagersStable(managers, ms, k - 1);
      assert ms[..k][..k - 1] == ms[..k - 1];
      TriedManager(managers, ms, k - 1);
    }
  }

  lemma {:induction false} AddMore(managers: set<string>, ms: seq<string>, k: nat)
    requires k <= |ms|
    ensures AddManagers(managers, ms[..k]) <= AddManagers(managers, ms)
    decreases |ms| - k
  {
    if k < |ms| {
      AddMore(managers, ms, k + 1);
      assert ms[..k + 1][..k] == ms[..k];
    } else {
      assert ms[..k] == ms;
    }
  }

  /** Every deployed manager is known after the update, unless the cap was reached. */
  lemma TriedManager(managers: set<string>, ms: seq<string>, i: nat)
    requires i < |ms|
    ensures var all := AddManagers(managers, ms); ms[i] in all || |all| >= MANAGER_CAP
  {
    var before, after := AddManagers(managers, ms[..i]), AddManagers(managers, ms[..i + 1]);
    assert ms[..i + 1][..i] == ms[..i];
    AddMore(managers, ms, i);
    AddMore(managers, ms, i + 1);
    if |before| >= MANAGER_CAP {
      Larger(before, AddManagers(managers, ms));
    }
  }

  lemma Larger(a: set<string>, b: set<string>)
    requires a <= b
    ensures |a| <= |b|
  {
    assert b == a + (b - a);
  }

  /** Known managers and pools decide only what they are consulted for. */
  lemma MoreManagers(cs: Contracts, m0: set<string>, m1: set<string>, tokens: set<string>, l: Log)
    requires m0 <= m1
    ensures Classify(cs, m0, tokens, l).Some? ==> Classify(cs, m1, tokens, l) == Classify(cs, m0, tokens, l)
    ensures Lower(l.address) in m1 && ManagerTopic(l.topic0) && l.topicCount > 0 ==> Classify(cs, m1, tokens, l) == Some(Plain(l.topic0))
  {
  }

  ghost predicate FillsToken(e: Event, f: Event) {
    f == e || (e.token.None? && f.token.Some? && f == e.(token := f.token))
  }

  lemma {:induction false} CreatedGrows(cs: Contracts, ls: seq<Log>, i: nat)
    requires i <= |ls|
    ensures Created(cs, ls[..i]).Keys <= Created(cs, ls).Keys
    decreases |ls| - i
  {
    if i < |ls| {
      CreatedGrows(cs, ls, i + 1);
      CreatedOne(cs, ls, i);
    } else {
      assert ls[..i] == ls;
    }
  }

  /** The second pass, log by log. It keeps every event of the first; its token changes other than by
      being filled in exactly when the pool was mapped before the batch, is created in it only after
      this log, and ends up with another token. */
  lemma SecondPassKeeps(cs: Contracts, managers: set<string>, tokens: set<string>, pools: Pools, ls: seq<Log>, i: nat)
    requires i < |ls|
    ensures var m1, p1 := AddManagers(managers, DeployedIn(cs, ls)), pools + Created(cs, ls);
            var first, second := Pass(cs, managers, tokens, pools, ls)[i], Pass(cs, m1, tokens, p1, ls)[i];
            var id := Lower(ls[i].args.poolId);
            first.Some? ==>
              && second.Some?
              && second.value == first.value.(token := second.value.token)
              && (FillsToken(first.value, second.value)
                  <==> !(NeedsToken(first.value.kind) && id in pools && id !in Created(cs, ls[..i])
                         && id in Created(cs, ls) && Created(cs, ls)[id] != pools[id]))
  {
    hide Classify, Created, AddManagers, DeployedIn, Lower;
    var ms := DeployedIn(cs, ls);
    ManagersStable(managers, ms, 0);
    CreatedGrows(cs, ls, i);
    MoreManagers(cs, managers, AddManagers(managers, ms), tokens, ls[i]);
  }

  /** When no pool that is already mapped is created again with another token (in particular when each
      pool is created once), the second pass only fills in missing tokens. */
  lemma SecondPassOnlyFills(cs: Contracts, managers: set<string>, tokens: set<string>, pools: Pools, ls: seq<Log>, i: nat)
    requires i < |ls|
    requires forall id :: id in pools && id in Created(cs, ls) ==> pools[id] == Created(cs, ls)[id]
    ensures var m1, p1 := AddManagers(managers, DeployedIn(cs, ls)), pools + Created(cs, ls);
            var first, second := Pass(cs, managers, tokens, pools, ls)[i], Pass(cs, m1, tokens, p1, ls)[i];
            first.Some? ==> second.Some? && FillsToken(first.value, second.value)
  {
    hide *;
    SecondPassKeeps(cs, managers, tokens, pools, ls, i);
  }

  /** The second pass resolves every swap and fee event whose pool is created anywhere in the batch, and
      decodes the events of managers deployed anywhere in it (below the cap). */
  lemma SecondPassResolves(cs: Contracts, managers: set<string>, tokens: set<string>, pools: Pools, ls: seq<Log>, i: nat)
    requires i < |ls|
    ensures var m1, p1 := AddManagers(managers, DeployedIn(cs, ls)), pools + Created(cs, ls);
            var second := Pass(cs, m1, tokens, p1, ls)[i];
            && (second.Some? && NeedsToken(second.value.kind) ==>
                  (second.value.token.Some? <==> Lower(ls[i].args.poolId) in pools || Lower(ls[i].args.poolId) in Created(cs, ls)))
            && (Lower(ls[i].address) in DeployedIn(cs, ls) && |m1| < MANAGER_CAP
                && ManagerTopic(ls[i].topic0) && ls[i].topicCount > 0 && ls[i].decodable ==>
                  second == Some(Event(Plain(ls[i].topic0), ls[i], None)))
  {
    hide Classify, Created, AddManagers, DeployedIn, Lower;
    var ms := DeployedIn(cs, ls);
    var m1 := AddManagers(managers, ms);
    CreatedGrows(cs, ls, i);
    MoreManagers(cs, m1, m1, tokens, ls[i]);
    if Lower(ls[i].address) in ms {
      var j :| 0 <= j < |ms| && ms[j] == Lower(ls[i].address);
      TriedManager(managers, ms, j);
    }
  }

  /** A third pass changes nothing, in any batch: the pool map, the managers and every event are those
      of the second. */
  lemma ThirdPassChangesNothing(cs: Contracts, managers: set<string>, tokens: set<string>, pools: Pools, ls: seq<Log>)
    ensures var m1, p1 := AddManagers(managers, DeployedIn(cs, ls)), pools + Created(cs, ls);
            var m2, p2 := AddManagers(m1, DeployedIn(cs, ls)), p1 + Created(cs, ls);
            && m2 == m1 && p2 == p1
            && Pass(cs, m2, tokens, p2, ls) == Pass(cs, m1, tokens, p1, ls)
  {
    hide Pass, AddManagers, Created, DeployedIn;
    var ms := DeployedIn(cs, ls);
    ManagersStable(managers, ms, |ms|);
    assert ms[..|ms|] == ms;
    CreatedTwice(cs, pools, ls);
  }

  /** A three-topic Transfer is decoded by either pass if and only if its data can be decoded and its token
      was known before the batch: the known tokens never grow, so a re-fetch would not help either. */
  lemma NewTokenTransfersLost(cs: Contracts, managers: set<string>, tokens: set<string>, pools: Pools, ls: seq<Log>, i: nat)
    requires i < |ls| && ls[i].topic0 == Transfer && ls[i].topicCount == 3
    ensures var m1, p1 := AddManagers(managers, DeployedIn(cs, ls)), pools + Created(cs, ls);
            var first, second := Pass(cs, managers, tokens, pools, ls)[i], Pass(cs, m1, tokens, p1, ls)[i];
            && first == second
            && (second.Some? <==> ls[i].decodable && Lower(ls[i].address) in tokens)
            && (second.Some? ==> second.value == Event(ERC20Transfer, ls[i], None))
  {
    hide AddManagers, Created, DeployedIn, Lower;
    TransferClass(cs, managers, tokens, ls[i]);
    TransferClass(cs, AddManagers(managers, DeployedIn(cs, ls)), tokens, ls[i]);
    hide Classify;
  }

  /** No branch before the last takes a three-topic Transfer, whatever the address and the managers. */
  lemma TransferClass(cs: Contracts, managers: set<string>, tokens: set<string>, l: Log)
    requires l.topic0 == Transfer && l.topicCount == 3
    ensures Classify(cs, managers, tokens, l) == if Lower(l.address) in tokens then Some(ERC20Transfer) else None
  {
  }

  // ----- Swap arithmetic -----

  const WAD: nat := 1_000_000_000_000_000_000

  function Abs(x: int): (a: nat)
    ensures a == x || a == -x
  {
    if x < 0 then -x else x
  }

  datatype SwapFigures = SwapFigures(priceEth: nat, isBuy: bool, volumeEth: nat)

  /** decodePoolSwap's figures from the fair-launch, internal and Uniswap amounts of both sides. */
  function Figures(fl0: int, isp0: int, uni0: int, fl1: int, isp1: int, uni1: int): SwapFigures {
    var a0, a1 := fl0 + isp0 + uni0, fl1 + isp1 + uni1;
    SwapFigures(if Abs(a1) > 0 then Abs(a0) * WAD / Abs(a1) else 0, a0 > 0, Abs(a0))
  }

  /** The price is the wei per token rounded down to a wei: the largest p with p tokens-worth not above
      the ETH moved. It is 0 exactly when no token moved or the true price is below one wei; reversing
      the direction of the swap changes neither price nor volume. */
  lemma PriceMeaning(fl0: int, isp0: int, uni0: int, fl1: int, isp1: int, uni1: int, p: nat)
    ensures var f := Figures(fl0, isp0, uni0, fl1, isp1, uni1);
            var eth, tok := Abs(fl0 + isp0 + uni0), Abs(fl1 + isp1 + uni1);
            && f.volumeEth == eth
            && (tok > 0 ==> (p <= f.priceEth <==> p * tok <= eth * WAD))
            && (f.priceEth == 0 <==> tok == 0 || eth * WAD < tok)
            && (f.isBuy <==> fl0 + isp0 + uni0 > 0)
            && var back := Figures(-fl0, -isp0, -uni0, -fl1, -isp1, -uni1);
               back.priceEth == f.priceEth && back.volumeEth == f.volumeEth && !(f.isBuy && back.isBuy)
  {
    var eth, tok := Abs(fl0 + isp0 + uni0), Abs(fl1 + isp1 + uni1);
    assert Abs(-fl0 - isp0 - uni0) == eth && Abs(-fl1 - isp1 - uni1) == tok;
    if tok > 0 {
      FloorMeaning(eth * WAD, tok, p);
      FloorMeaning(eth * WAD, tok, 1);
    }
  }
}
