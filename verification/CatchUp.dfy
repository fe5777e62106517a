/** Catch-up: the batch, header-chunk and log-chunk loops, the merge of two log queries, and what is
    published over any number of crashes and restarts from the checkpoint. */
module CatchUp {
  import opened Base
  import Arithmetic

  const HEADER_CONCURRENCY := 10
  const LOGS_CHUNK := 10
  const EARLIEST_DEPLOY_BLOCK := 25_689_000

  /** The block numbers a..b, both included. */
  function Range(a: int, b: int): (r: seq<int>)
    ensures |r| == if a <= b then b - a + 1 else 0
    ensures forall i :: 0 <= i < |r| ==> r[i] == a + i
    decreases b - a
  {
    if a > b then [] else Range(a, b - 1) + [b]
  }

  lemma RangeJoin(a: int, b: int, c: int)
    requires a <= b + 1 && b <= c
    ensures Range(a, b) + Range(b + 1, c) == Range(a, c)
  {
  }

  // ----- Log queries -----

  datatype Log = Log(block: int, index: nat, watched: bool, body: string)

  datatype LogKey = LogKey(block: int, index: nat)

  function KeyOf(l: Log): LogKey { LogKey(l.block, l.index) }

  /** All the logs a filter selects in blocks a..b, in block order: the answer of one unbounded query. */
  function Collect(f: int -> seq<Log>, a: int, b: int): seq<Log>
    decreases b - a
  {
    if a > b then [] else Collect(f, a, b - 1) + f(b)
  }

  lemma {:induction false} CollectJoin(f: int -> seq<Log>, a: int, b: int, c: int)
    requires a <= b + 1 && b <= c
    ensures Collect(f, a, b) + Collect(f, b + 1, c) == Collect(f, a, c)
    decreases c - b
  {
    if b < c {
      CollectJoin(f, a, b, c - 1);
      assert Collect(f, a, b) + (Collect(f, b + 1, c - 1) + f(c)) == Collect(f, a, b) + Collect(f, b + 1, c - 1) + f(c);
    }
  }

  function Keys(ls: seq<Log>): set<LogKey> {
    set l | l in ls :: KeyOf(l)
  }

  /** The logs of `more` whose key is new, keeping the first of each key, after `base`. */
  function MergeLogs(base: seq<Log>, more: seq<Log>): seq<Log> {
    if more == [] then base
    else
      var m, l := MergeLogs(base, more[..|more| - 1]), more[|more| - 1];
      if KeyOf(l) in Keys(m) then m else m + [l]
  }

  function Watched(ls: seq<Log>): seq<Log> {
    if ls == [] then []
    else Watched(ls[..|ls| - 1]) + if ls[|ls| - 1].watched then [ls[|ls| - 1]] else []
  }

  /** fetchLogsWithTimestamps: two queries per chunk of ten blocks, merged by block and log index,
      then filtered by topic. */
  method FetchLogs(from: int, upTo: int, known: int -> seq<Log>, managerInit: int -> seq<Log>) returns (logs: seq<Log>)
    ensures logs == Watched(MergeLogs(Collect(known, from, upTo), Collect(managerInit, from, upTo)))
  {
    hide Watched, Keys;
    var allKnown, allInit: seq<Log> := [], [];
    var chunkStart := from;
    while chunkStart <= upTo
      invariant from <= chunkStart && (chunkStart <= upTo + 1 || chunkStart == from)
      invariant allKnown == Collect(known, from, chunkStart - 1)
      invariant allInit == Collect(managerInit, from, chunkStart - 1)
      decreases upTo - chunkStart
    {
      var chunkEnd := if chunkStart + LOGS_CHUNK - 1 < upTo then chunkStart + LOGS_CHUNK - 1 else upTo;
      CollectJoin(known, from, chunkStart - 1, chunkEnd);
      CollectJoin(managerInit, from, chunkStart - 1, chunkEnd);
      allKnown := allKnown + Collect(known, chunkStart, chunkEnd);
      allInit := allInit + Collect(managerInit, chunkStart, chunkEnd);
      chunkStart := chunkEnd + 1;
    }
    var seen := Keys(allKnown);
    var merged := allKnown;
    for i := 0 to |allInit|
      invariant merged == MergeLogs(allKnown, allInit[..i])
      invariant seen == Keys(merged)
    {
      assert allInit[..i + 1][..i] == allInit[..i];
      AddLog(merged, allInit[i]);
      if KeyOf(allInit[i]) !in seen {
        seen := seen + {KeyOf(allInit[i])};
        merged := merged + [allInit[i]];
      }
    }
    assert allInit[..|allInit|] == allInit;
    EmptyCollect(known, from, upTo, chunkStart);
    EmptyCollect(managerInit, from, upTo, chunkStart);
    logs := Watched(merged);
  }

  /** A collection is the answers for its blocks, put together in block order. */
  lemma {:induction false} CollectMeaning(f: int -> seq<Log>, a: int, b: int, l: Log)
    ensures l in Collect(f, a, b) <==> exists n :: a <= n <= b && l in f(n)
    ensures Collect(f, a, a) == f(a)
    decreases b - a
  {
    assert Collect(f, a, a - 1) == [];
    if a <= b { CollectMeaning(f, a, b - 1, l); }
  }

  /** The topic filter keeps exactly the watched logs, in order. */
  lemma {:induction false} WatchedMeaning(a: seq<Log>, b: seq<Log>, l: Log)
    ensures Watched(a + b) == Watched(a) + Watched(b)
    ensures Watched([l]) == if l.watched then [l] else []
    ensures l in Watched(b) <==> l in b && l.watched
  {
    assert [l][..0] == [];
    if b == [] {
      assert a + b == a;
    } else {
      WatchedMeaning(a, b[..|b| - 1], l);
      assert (a + b)[..|a + b| - 1] == a + b[..|b| - 1];
      assert b == b[..|b| - 1] + [b[|b| - 1]];
    }
  }

  /** What a fetch returns: only watched logs, each from one of the two queries on a block of the range; all
      the watched ones of the first query; and, since a position holds one log, all of the second. */
  lemma FetchMeaning(from: int, upTo: int, known: int -> seq<Log>, managerInit: int -> seq<Log>, l: Log)
    requires var all := Collect(known, from, upTo) + Collect(managerInit, from, upTo);
             forall x, y :: (x in all && y in all && KeyOf(x) == KeyOf(y)) ==> x == y
    ensures l in Watched(MergeLogs(Collect(known, from, upTo), Collect(managerInit, from, upTo)))
            <==> l.watched && exists n :: from <= n <= upTo && (l in known(n) || l in managerInit(n))
  {
    hide Watched, MergeLogs, Collect, UniqueKeys;
    var a, b := Collect(known, from, upTo), Collect(managerInit, from, upTo);
    var m := MergeLogs(a, b);
    MergeMeaning(a, b);
    CollectMeaning(known, from, upTo, l);
    CollectMeaning(managerInit, from, upTo, l);
    WatchedMeaning([], m, l);
    if l in b {
      assert KeyOf(l) in Keys(b) && Keys(b) <= Keys(m);
      var x :| x in m && KeyOf(x) == KeyOf(l);
      assert x in a + b && l in a + b;
    }
  }

  lemma EmptyCollect(f: int -> seq<Log>, from: int, upTo: int, at: int)
    requires from <= at && at > upTo && (at <= upTo + 1 || at == from)
    ensures Collect(f, from, at - 1) == Collect(f, from, upTo)
  {
  }

  ghost predicate UniqueKeys(ls: seq<Log>) {
    forall i, j :: 0 <= i < j < |ls| ==> KeyOf(ls[i]) != KeyOf(ls[j])
  }

  ghost predicate Merged(base: seq<Log>, more: seq<Log>, m: seq<Log>) {
    && Keys(m) == Keys(base) + Keys(more)
    && base <= m
    && (forall l :: l in m ==> l in base || l in more)
    && (UniqueKeys(base) ==> UniqueKeys(m))
  }

  /** The merge loses no log position, keeps the first query as it is, adds only logs of the second,
      and repeats no position the first query did not repeat. */
  lemma {:induction false} MergeMeaning(base: seq<Log>, more: seq<Log>)
    ensures Merged(base, more, MergeLogs(base, more))
  {
    if more == [] {
      assert Keys(more) == {};
    } else {
      var front, l := more[..|more| - 1], more[|more| - 1];
      MergeMeaning(base, front);
      assert more == front + [l];
      MergeOne(base, front, l, MergeLogs(base, front));
    }
  }

  lemma MergeOne(base: seq<Log>, front: seq<Log>, l: Log, m: seq<Log>)
    requires Merged(base, front, m)
    ensures Merged(base, front + [l], if KeyOf(l) in Keys(m) then m else m + [l])
  {
    hide Keys, UniqueKeys, KeyOf;
    AddLog(front, l);
    AddLog(m, l);
  }

  lemma AddLog(ls: seq<Log>, l: Log)
    ensures Keys(ls + [l]) == Keys(ls) + {KeyOf(l)}
    ensures ls <= ls + [l] && forall x :: x in ls + [l] <==> x in ls || x == l
    ensures UniqueKeys(ls) && KeyOf(l) !in Keys(ls) ==> UniqueKeys(ls + [l])
  {
    assert forall i :: 0 <= i < |ls| ==> ls[i] in ls && KeyOf(ls[i]) in Keys(ls);
  }

  // ----- Batches -----

  /** The block whose events are published (in order), the ledger rows, and the checkpoint. */
  datatype Progress = Progress(published: seq<int>, ledger: set<int>, checkpoint: Option<int>)

  /** How far a batch got: its events published, its ledger rows written, but not its checkpoint. */
  datatype Stage = Unpublished | Published | Ledgered

  /** The process may stop in a later batch, at any of its stages. */
  datatype Crash = NoCrash | CrashIn(batches: nat, stage: Stage)

  function BatchEnd(start: int, batch: nat, upTo: int): int {
    Min(start + batch - 1, upTo)
  }

  function CatchUpFrom(s: Progress, from: int, upTo: int, batch: nat, crash: Crash): Progress
    requires batch > 0
    decreases upTo - from
  {
    if from > upTo then s
    else
      var end := BatchEnd(from, batch, upTo);
      if crash.CrashIn? && crash.batches == 0 then BatchCut(s, from, end, crash.stage)
      else CatchUpFrom(BatchDone(s, from, end), end + 1, upTo, batch, Later(crash))
  }

  function BatchCut(s: Progress, start: int, end: int, stage: Stage): Progress {
    if stage.Unpublished? then s
    else Progress(s.published + Range(start, end), if stage.Ledgered? then s.ledger + {end} else s.ledger, s.checkpoint)
  }

  function BatchDone(s: Progress, start: int, end: int): Progress {
    Progress(s.published + Range(start, end), s.ledger + {end}, Some(end))
  }

  /** The crash as seen from the next batch. */
  function Later(crash: Crash): Crash
    requires crash.CrashIn? ==> crash.batches > 0
  {
    if crash.NoCrash? then NoCrash else CrashIn(crash.batches - 1, crash.stage)
  }

  /** Where the crash cuts the present batch, if it does. */
  function Now(crash: Crash): Option<Stage> {
    if crash.CrashIn? && crash.batches == 0 then Some(crash.stage) else None
  }

  lemma BatchCases(s: Progress, from: int, upTo: int, batch: nat, crash: Crash)
    requires batch > 0
    ensures var end, u := BatchEnd(from, batch, upTo), CatchUpFrom(s, from, upTo, batch, crash);
            if from > upTo then u == s
            else if crash.CrashIn? && crash.batches == 0 then u == BatchCut(s, from, end, crash.stage)
            else u == CatchUpFrom(BatchDone(s, from, end), end + 1, upTo, batch, Later(crash))
  {
  }

  class Scanner {
    var headers: seq<int>
    var published: seq<int>
    var ledger: set<int>
    var checkpoint: Option<int>

    ghost function State(): Progress
      reads this
    {
      Progress(published, ledger, checkpoint)
    }

    constructor (s: Progress)
      ensures State() == s && headers == []
    {
      headers, published, ledger, checkpoint := [], s.published, s.ledger, s.checkpoint;
    }

    /** Headers of one batch, ten requests at a time. */
    method FetchHeaders(start: int, end: int)
      requires start <= end
      modifies this`headers
      ensures headers == old(headers) + Range(start, end)
    {
      var blockNumbers := Range(start, end);
      var i := 0;
      while i < |blockNumbers|
        invariant 0 <= i <= |blockNumbers|
        invariant headers == old(headers) + blockNumbers[..i]
      {
        var j := if i + HEADER_CONCURRENCY < |blockNumbers| then i + HEADER_CONCURRENCY else |blockNumbers|;
        assert blockNumbers[..j] == blockNumbers[..i] + blockNumbers[i..j];
        headers := headers + blockNumbers[i..j];
        i := j;
      }
      assert blockNumbers[..|blockNumbers|] == blockNumbers;
    }

    /** One batch: headers, publishing, ledger, checkpoint; `cut` is how far it gets (None: to its end). */
    method RunBatch(start: int, end: int, cut: Option<Stage>) returns (done: bool)
      requires start <= end
      modifies this
      ensures State() == if cut.None? then BatchDone(old(State()), start, end) else BatchCut(old(State()), start, end, cut.value)
      ensures headers == old(headers) + Range(start, end)
      ensures done <==> cut.None?
      ensures done ==> published == old(published) + Range(start, end) && checkpoint == Some(end)
    {
      hide Range;
      FetchHeaders(start, end);
      if cut == Some(Unpublished) { return false; }
      published := published + Range(start, end);
      if cut == Some(Published) { return false; }
      ledger := ledger + {end};
      if cut == Some(Ledgered) { return false; }
      checkpoint := Some(end);
      done := true;
    }

    /** catchUp over from..to in batches. */
    method CatchUp(from: int, upTo: int, batch: nat, crash: Crash) returns (done: bool)
      requires batch > 0
      modifies this
      ensures State() == CatchUpFrom(old(State()), from, upTo, batch, crash)
      ensures done && from <= upTo ==>
                && headers == old(headers) + Range(from, upTo)
                && published == old(published) + Range(from, upTo)
                && checkpoint == Some(upTo)
      ensures crash == NoCrash ==> done
    {
      hide CatchUpFrom, BatchDone, BatchCut, BatchEnd, Range;
      NoRange(from);
      var start, left := from, crash;
      while start <= upTo
        invariant from <= start && (start <= upTo + 1 || start == from)
        invariant crash == NoCrash ==> left == NoCrash
        invariant CatchUpFrom(old(State()), from, upTo, batch, crash) == CatchUpFrom(State(), start, upTo, batch, left)
        invariant headers == old(headers) + Range(from, start - 1)
        invariant published == old(published) + Range(from, start - 1)
        invariant start > from ==> checkpoint == Some(start - 1)
        decreases upTo - start
      {
        var end := if start + batch - 1 < upTo then start + batch - 1 else upTo;
        EndOf(start, batch, upTo);
        Append(old(headers), from, start - 1, end);
        Append(old(published), from, start - 1, end);
        BatchCases(State(), start, upTo, batch, left);
        var finished := RunBatch(start, end, Now(left));
        if !finished { return false; }
        left := Later(left);
        start := end + 1;
      }
      BatchCases(State(), start, upTo, batch, left);
      done := true;
    }
  }

  lemma EndOf(start: int, batch: nat, upTo: int)
    ensures BatchEnd(start, batch, upTo) == if start + batch - 1 < upTo then start + batch - 1 else upTo
  {
  }

  lemma Append(s: seq<int>, a: int, b: int, c: int)
    requires a <= b + 1 && b <= c
    ensures s + Range(a, b) + Range(b + 1, c) == s + Range(a, c)
  {
    RangeJoin(a, b, c);
  }

  lemma NoRange(a: int)
    ensures Range(a, a - 1) == []
  {
  }

  /** However a catch-up ends, it has published from..p for some p, each block once and in order, and
      its checkpoint is at most one batch behind p (or still the old one, with p within the first batch). */
  ghost predicate Reaches(s: Progress, u: Progress, from: int, upTo: int, batch: nat, crashed: bool, p: int) {
    && from - 1 <= p <= Max(upTo, from - 1)
    && u.published == s.published + Range(from, p)
    && (if u.checkpoint == s.checkpoint then p <= from - 1 + batch
        else u.checkpoint.Some? && from <= u.checkpoint.value <= p <= u.checkpoint.value + batch)
    && (!crashed && from <= upTo ==> p == upTo && u.checkpoint == Some(upTo))
  }

  lemma {:induction false} CatchUpReaches(s: Progress, from: int, upTo: int, batch: nat, crash: Crash) returns (p: int)
    requires batch > 0 && (s.checkpoint.Some? ==> s.checkpoint.value < from)
    ensures Reaches(s, CatchUpFrom(s, from, upTo, batch, crash), from, upTo, batch, crash != NoCrash, p)
    decreases upTo - from
  {
    hide CatchUpFrom, Range, BatchEnd;
    BatchCases(s, from, upTo, batch, crash);
    NoRange(from);
    if from > upTo {
      p := from - 1;
    } else {
      var end := BatchEnd(from, batch, upTo);
      EndOf(from, batch, upTo);
      if crash.CrashIn? && crash.batches == 0 {
        p := if crash.stage.Unpublished? then from - 1 else end;
      } else {
        p := CatchUpReaches(BatchDone(s, from, end), end + 1, upTo, batch, Later(crash));
        Append(s.published, from, end, p);
      }
    }
  }

  // ----- Restarts -----

  /** resolveStartBlock without the START_BLOCK override. */
  function ResolveStart(checkpoint: Option<int>): int {
    if checkpoint.Some? && checkpoint.value > 0 then checkpoint.value + 1 else EARLIEST_DEPLOY_BLOCK
  }

  const REPLAY_DEPTH := 100

  /** What verifyAndReplayGaps can publish again: of the blocks with a ledger row above checkpoint - 100,
      in ascending order, those whose events are gone from Redis and can be fetched. */
  predicate Replayable(s: Progress, ns: seq<int>) {
    && s.checkpoint.Some? && s.checkpoint.value > REPLAY_DEPTH
    && (forall i, j :: 0 <= i < j < |ns| ==> ns[i] < ns[j])
    && (forall i :: 0 <= i < |ns| ==> ns[i] in s.ledger && ns[i] > s.checkpoint.value - REPLAY_DEPTH)
  }

  function Replay(s: Progress, ns: seq<int>): Progress {
    if Replayable(s, ns) then s.(published := s.published + ns) else s
  }

  /** One life of the process: it replays what Redis has lost, finds the head and catches up, perhaps
      crashing (a crash during the replay is a shorter replay and a crash before the first batch). */
  datatype Life = Life(replayed: seq<int>, head: int, crash: Crash)

  function Start(s: Progress, l: Life, batch: nat): Progress
    requires batch > 0
  {
    var r := Replay(s, l.replayed);
    var from := ResolveStart(r.checkpoint);
    if from < l.head then CatchUpFrom(r, from, l.head, batch, l.crash) else r
  }

  function Lives(s: Progress, ls: seq<Life>, batch: nat): Progress
    requires batch > 0
  {
    if ls == [] then s else Start(Lives(s, ls[..|ls| - 1], batch), ls[|ls| - 1], batch)
  }

  function Crashes(ls: seq<Life>): nat {
    if ls == [] then 0 else Crashes(ls[..|ls| - 1]) + if ls[|ls| - 1].crash.NoCrash? then 0 else 1
  }

  /** The starts that replayed block n. */
  function Replays(ls: seq<Life>, n: int): nat {
    if ls == [] then 0 else Replays(ls[..|ls| - 1], n) + if n in ls[|ls| - 1].replayed then 1 else 0
  }

  const FRESH := Progress([], {}, None)

  /** The blocks published so far are exactly EARLIEST..p, those with ledger rows among them, and the
      checkpoint is within a batch of p. */
  ghost predicate CoveredTo(s: Progress, batch: nat, p: int) {
    && (forall n :: n in s.published <==> EARLIEST_DEPLOY_BLOCK <= n <= p)
    && s.ledger <= (set n | n in s.published)
    && (if s.checkpoint.Some? then EARLIEST_DEPLOY_BLOCK <= s.checkpoint.value <= p <= s.checkpoint.value + batch
        else EARLIEST_DEPLOY_BLOCK - 1 <= p <= EARLIEST_DEPLOY_BLOCK - 1 + batch)
  }

  /** A block at or below the checkpoint was published once more than any block above it may have been. */
  ghost predicate RarelyTwice(s: Progress, crashes: nat, ls: seq<Life>) {
    forall n :: multiset(s.published)[n] <= crashes + Replays(ls, n) + if s.checkpoint.Some? && n <= s.checkpoint.value then 1 else 0
  }

  lemma RangeMembers(a: int, b: int, n: int)
    ensures n in Range(a, b) <==> a <= n <= b
    ensures multiset(Range(a, b))[n] == if a <= n <= b then 1 else 0
    decreases b - a
  {
    if a <= b {
      RangeMembers(a, b - 1, n);
      assert Range(a, b) == Range(a, b - 1) + [b];
      if a <= n <= b { assert Range(a, b)[n - a] == n; }
    } else {
      assert Range(a, b) == [];
    }
  }

  /** Coverage: over any crashes and restarts at checkpoint + 1, the published blocks are exactly
      those from the first start through some p, every block up to the checkpoint among them; p is
      at most one batch ahead; and no block is published more than once plus once per crash, plus once per
      start that found it lost from Redis. */
  lemma {:induction false} CoverageOverCrashes(ls: seq<Life>, batch: nat) returns (p: int)
    requires batch > 0
    ensures CoveredTo(Lives(FRESH, ls, batch), batch, p)
    ensures RarelyTwice(Lives(FRESH, ls, batch), Crashes(ls), ls)
  {
    if ls == [] {
      p := EARLIEST_DEPLOY_BLOCK - 1;
    } else {
      var front, l := ls[..|ls| - 1], ls[|ls| - 1];
      var s := Lives(FRESH, front, batch);
      p := CoverageOverCrashes(front, batch);
      ReplayCovers(s, l, batch, p, Crashes(front), front);
      hide Replay, CatchUpFrom, CoveredTo, RarelyTwice;
      assert ls == front + [l];
      if ResolveStart(Replay(s, l.replayed).checkpoint) < l.head {
        p := LifeCovers(Replay(s, l.replayed), l, batch, p, Crashes(front), ls);
      } else {
        MoreCrashes(Replay(s, l.replayed), Crashes(front), Crashes(ls), ls);
      }
    }
  }

  lemma MoreCrashes(s: Progress, crashes: nat, more: nat, ls: seq<Life>)
    requires RarelyTwice(s, crashes, ls) && crashes <= more
    ensures RarelyTwice(s, more, ls)
  {
  }

  lemma {:induction false} AscendingOnce(ns: seq<int>, n: int)
    requires forall i, j :: 0 <= i < j < |ns| ==> ns[i] < ns[j]
    ensures multiset(ns)[n] == if n in ns then 1 else 0
  {
    if ns != [] {
      var front, last := ns[..|ns| - 1], ns[|ns| - 1];
      AscendingOnce(front, n);
      assert ns == front + [last];
    }
  }

  /** A replay publishes only what had been published, and each block once. */
  lemma ReplayCovers(s: Progress, l: Life, batch: nat, p: int, crashes: nat, ls: seq<Life>)
    requires CoveredTo(s, batch, p) && RarelyTwice(s, crashes, ls)
    ensures CoveredTo(Replay(s, l.replayed), batch, p)
    ensures RarelyTwice(Replay(s, l.replayed), crashes, ls + [l])
    ensures Replay(s, l.replayed).checkpoint == s.checkpoint
  {
    var u := Replay(s, l.replayed);
    assert (ls + [l])[..|ls|] == ls;
    forall n ensures multiset(u.published)[n] <= multiset(s.published)[n] + if n in l.replayed then 1 else 0 {
      if Replayable(s, l.replayed) { AscendingOnce(l.replayed, n); }
    }
    assert forall n :: n in u.published <==> n in s.published;
  }

  lemma CoverGrows(s: Progress, u: Progress, from: int, r: int, batch: nat, p: int)
    requires CoveredTo(s, batch, p) && from == ResolveStart(s.checkpoint) && from - 1 <= r
    requires u.published == s.published + Range(from, r)
    requires if u.checkpoint == s.checkpoint then r <= from - 1 + batch
             else u.checkpoint.Some? && from <= u.checkpoint.value <= r <= u.checkpoint.value + batch
    requires forall n :: n in u.ledger ==> n in s.ledger || n in u.published
    ensures CoveredTo(u, batch, Max(p, r))
  {
    hide Range;
    forall n ensures n in u.published <==> EARLIEST_DEPLOY_BLOCK <= n <= Max(p, r) {
      RangeMembers(from, r, n);
    }
  }

  lemma LifeCovers(s: Progress, l: Life, batch: nat, p: int, crashes: nat, ls: seq<Life>) returns (q: int)
    requires batch > 0 && CoveredTo(s, batch, p) && RarelyTwice(s, crashes, ls)
    requires ResolveStart(s.checkpoint) < l.head
    ensures var u := CatchUpFrom(s, ResolveStart(s.checkpoint), l.head, batch, l.crash);
            CoveredTo(u, batch, q) && RarelyTwice(u, crashes + (if l.crash.NoCrash? then 0 else 1), ls)
  {
    hide CatchUpFrom, Range;
    var from := ResolveStart(s.checkpoint);
    var r := CatchUpReaches(s, from, l.head, batch, l.crash);
    var u := CatchUpFrom(s, from, l.head, batch, l.crash);
    q := Max(p, r);
    forall n ensures n in u.ledger ==> n in s.ledger || n in u.published {
      LedgerWithin(s, from, l.head, batch, l.crash, n);
    }
    CoverGrows(s, u, from, r, batch, p);
    CountGrows(s, u, from, r, crashes, !l.crash.NoCrash?, ls);
  }

  /** Rows are written for published blocks. */
  lemma {:induction false} LedgerWithin(s: Progress, from: int, upTo: int, batch: nat, crash: Crash, n: int)
    requires batch > 0
    ensures var u := CatchUpFrom(s, from, upTo, batch, crash);
            && (n in u.ledger ==> n in s.ledger || n in u.published)
            && (n in s.published ==> n in u.published)
    decreases upTo - from
  {
    hide CatchUpFrom, Range, BatchEnd;
    BatchCases(s, from, upTo, batch, crash);
    if from <= upTo {
      var end := BatchEnd(from, batch, upTo);
      EndOf(from, batch, upTo);
      RangeMembers(from, end, end);
      if crash.NoCrash? || crash.batches > 0 {
        LedgerWithin(BatchDone(s, from, end), end + 1, upTo, batch, Later(crash), n);
      }
    }
  }

  lemma CountGrows(s: Progress, u: Progress, from: int, r: int, crashes: nat, crashed: bool, ls: seq<Life>)
    requires RarelyTwice(s, crashes, ls) && from - 1 <= r && (s.checkpoint.Some? ==> s.checkpoint.value < from)
    requires u.published == s.published + Range(from, r)
    requires u.checkpoint == s.checkpoint || (u.checkpoint.Some? && from <= u.checkpoint.value)
    requires !crashed ==> u.checkpoint == Some(r)
    ensures RarelyTwice(u, crashes + (if crashed then 1 else 0), ls)
  {
    hide Range, Replays;
    forall n ensures multiset(u.published)[n] <= crashes + (if crashed then 1 else 0) + Replays(ls, n)
                                                 + if u.checkpoint.Some? && n <= u.checkpoint.value then 1 else 0
    {
      RangeMembers(from, r, n);
      assert multiset(u.published) == multiset(s.published) + multiset(Range(from, r));
    }
  }

  // ----- The ledger, and the live path -----

  /** Is n the last block of its batch? */
  predicate EndsBatch(from: int, upTo: int, batch: nat, n: int)
    requires batch > 0 && from <= n
  {
    n == upTo || (n - from + 1) % batch == 0
  }

  /** The number of the batch that holds block n, counted from 0. */
  function BatchOf(from: int, batch: nat, n: int): nat
    requires batch > 0 && from <= n
  {
    (n - from) / batch
  }

  /** Did the batch of block n get as far as the given stage? */
  predicate Got(from: int, batch: nat, crash: Crash, n: int, stage: Stage)
    requires batch > 0 && from <= n
  {
    crash.NoCrash? || BatchOf(from, batch, n) < crash.batches
    || (BatchOf(from, batch, n) == crash.batches
        && (stage == crash.stage || crash.stage.Ledgered? || stage.Unpublished?))
  }

  /** The ledger and the published blocks after a catch-up, block by block, whatever the crash: a block of
      the range is published anew if its batch was, and gets a row if its batch was ledgered and it ends it. */
  lemma {:induction false} LedgerHoldsEnds(s: Progress, from: int, upTo: int, batch: nat, crash: Crash, n: int)
    requires batch > 0 && from <= n <= upTo
    ensures var u := CatchUpFrom(s, from, upTo, batch, crash);
            && (n in u.ledger <==> n in s.ledger || (EndsBatch(from, upTo, batch, n) && Got(from, batch, crash, n, Ledgered)))
            && (n in u.published <==> n in s.published || Got(from, batch, crash, n, Published))
    decreases upTo - from
  {
    hide CatchUpFrom, Range;
    var end := BatchEnd(from, batch, upTo);
    var out := BatchDone(s, from, end);
    BatchCases(s, from, upTo, batch, crash);
    RangeMembers(from, end, n);
    NextBatch(from, upTo, batch, n);
    hide EndsBatch, BatchOf, Min;
    if crash.NoCrash? || crash.batches > 0 {
      if n <= end {
        LedgerGrows(out, end + 1, upTo, batch, Later(crash), n);
      } else {
        LedgerHoldsEnds(out, end + 1, upTo, batch, Later(crash), n);
      }
    }
  }

  /** A block of the first batch, and a block of a later one, as seen from the start of the next. */
  lemma NextBatch(from: int, upTo: int, batch: nat, n: int)
    requires batch > 0 && from <= n <= upTo
    ensures var end := BatchEnd(from, batch, upTo);
            if n <= end then BatchOf(from, batch, n) == 0 && (EndsBatch(from, upTo, batch, n) <==> n == end)
            else BatchOf(from, batch, n) == BatchOf(end + 1, batch, n) + 1
                 && (EndsBatch(from, upTo, batch, n) <==> EndsBatch(end + 1, upTo, batch, n))
  {
    var end := BatchEnd(from, batch, upTo);
    if n <= end {
      SmallMod(n - from + 1, batch);
      Arithmetic.Quotient(n - from, batch, 0, n - from);
    } else {
      ModShift(n - end, batch);
      NextQuotient(n - end - 1, batch);
      assert n - from == n - end - 1 + batch;
    }
  }

  lemma NextQuotient(x: nat, m: nat)
    requires m > 0
    ensures (x + m) / m == x / m + 1
  {
    var q := x / m;
    assert x + m == m * (q + 1) + x % m;
    Arithmetic.Quotient(x + m, m, q + 1, x % m);
  }

  lemma SmallMod(x: nat, m: nat)
    requires 0 < x <= m
    ensures x % m == 0 <==> x == m
  {
    if x < m { Arithmetic.Quotient(x, m, 0, x); } else { Arithmetic.Quotient(x, m, 1, 0); }
  }

  lemma ModShift(x: nat, m: nat)
    requires m > 0
    ensures (x + m) % m == x % m
  {
    var q := x / m;
    assert x + m == m * (q + 1) + x % m;
    Arithmetic.Quotient(x + m, m, q + 1, x % m);
  }

  lemma {:induction false} LedgerGrows(s: Progress, from: int, upTo: int, batch: nat, crash: Crash, n: int)
    requires batch > 0 && n < from
    ensures n in CatchUpFrom(s, from, upTo, batch, crash).ledger <==> n in s.ledger
    ensures n in CatchUpFrom(s, from, upTo, batch, crash).published <==> n in s.published
    decreases upTo - from
  {
    if from <= upTo {
      var end := BatchEnd(from, batch, upTo);
      if crash.NoCrash? || crash.batches > 0 {
        LedgerGrows(BatchDone(s, from, end), end + 1, upTo, batch, Later(crash), n);
      }
    }
  }

  /** Every block this catch-up published has a ledger row. */
  ghost predicate RowPerBlock(u: Progress, from: int, upTo: int, batch: nat, crash: Crash)
    requires batch > 0
  {
    forall n :: from <= n <= upTo && Got(from, batch, crash, n, Published) ==> n in u.ledger
  }

  /** The replay after a Redis loss re-fetches the block of each missing ledger row. However a catch-up
      ends, with no rows yet for its range, it leaves a row for every block it published if and only if it
      published nothing, or its batches are single blocks (or the range is) and no crash came between
      publishing a batch and writing its rows. */
  lemma ReplayCoversCatchUp(s: Progress, from: int, upTo: int, batch: nat, crash: Crash)
    requires batch > 0 && from <= upTo
    requires forall n :: from <= n <= upTo ==> n !in s.ledger
    ensures RowPerBlock(CatchUpFrom(s, from, upTo, batch, crash), from, upTo, batch, crash)
            <==> || crash == CrashIn(0, Unpublished)
                 || ((batch == 1 || from == upTo)
                     && !(crash.CrashIn? && crash.stage.Published? && from + crash.batches <= upTo))
  {
    hide CatchUpFrom;
    var u := CatchUpFrom(s, from, upTo, batch, crash);
    forall n | from <= n <= upTo
      ensures n in u.ledger <==> EndsBatch(from, upTo, batch, n) && Got(from, batch, crash, n, Ledgered)
    {
      LedgerHoldsEnds(s, from, upTo, batch, crash, n);
    }
    Arithmetic.Quotient(0, batch, 0, 0);
    if batch == 1 || from == upTo {
      assert forall n :: from <= n <= upTo ==> EndsBatch(from, upTo, batch, n);
      assert forall n :: from <= n <= upTo ==> BatchOf(from, batch, n) == n - from;
      if crash.CrashIn? && crash.stage.Published? && from + crash.batches <= upTo {
        var n := from + crash.batches;
        assert Got(from, batch, crash, n, Published) && !Got(from, batch, crash, n, Ledgered);
      }
    } else {
      SmallMod(1, batch);
      assert !EndsBatch(from, upTo, batch, from);
      assert Got(from, batch, crash, from, Published) <==> crash != CrashIn(0, Unpublished);
    }
  }

  /** A live block is published and becomes the checkpoint, whatever came before it. */
  function Live(s: Progress, n: int): Progress {
    Progress(s.published + [n], s.ledger + {n}, Some(n))
  }

  ghost predicate Covered(s: Progress, first: int) {
    s.checkpoint.Some? ==> forall n :: first <= n <= s.checkpoint.value ==> n in s.published
  }

  lemma LiveKeepsCoverage(s: Progress, first: int, n: int)
    ensures Covered(Live(s, n), first) <==> forall m :: first <= m < n ==> m in s.published
  {
    var u := Live(s, n);
    if Covered(u, first) {
      forall m | first <= m < n ensures m in s.published {
        assert m in u.published;
      }
    }
  }

  /** Live blocks, in the order they come. */
  function LiveAll(s: Progress, ns: seq<int>): Progress {
    if ns == [] then s else Live(LiveAll(s, ns[..|ns| - 1]), ns[|ns| - 1])
  }

  lemma {:induction false} LivePublishes(s: Progress, ns: seq<int>, m: int)
    ensures m in LiveAll(s, ns).published <==> m in s.published || m in ns
  {
    if ns != [] {
      LivePublishes(s, ns[..|ns| - 1], m);
      assert ns == ns[..|ns| - 1] + [ns[|ns| - 1]];
    }
  }

  /** What an undisturbed start has published, from the earliest block on. */
  lemma StartPublishes(s: Progress, lost: seq<int>, head: int, batch: nat, m: int)
    requires batch > 0 && EARLIEST_DEPLOY_BLOCK <= m && s.ledger <= (set n | n in s.published)
    requires forall k :: EARLIEST_DEPLOY_BLOCK <= k < ResolveStart(s.checkpoint) ==> k in s.published
    requires EARLIEST_DEPLOY_BLOCK <= ResolveStart(s.checkpoint)
    ensures m in Start(s, Life(lost, head, NoCrash), batch).published
            <==> m in s.published || (ResolveStart(s.checkpoint) <= m <= head && ResolveStart(s.checkpoint) != head)
  {
    var r, from := Replay(s, lost), ResolveStart(s.checkpoint);
    assert r.checkpoint == s.checkpoint && (m in r.published <==> m in s.published);
    hide Replay;
    if from < head {
      var p := CatchUpReaches(r, from, head, batch, NoCrash);
      hide CatchUpFrom, Range;
      RangeMembers(from, head, m);
    }
  }

  /** When a start publishes a lost block again: it has a ledger row less than 100 blocks below a checkpoint
      past 100. */
  lemma ReplayOne(s: Progress, n: int)
    ensures Replay(s, [n])
            == if s.checkpoint.Some? && s.checkpoint.value > 100 && n > s.checkpoint.value - 100 && n in s.ledger
               then Progress(s.published + [n], s.ledger, s.checkpoint) else s
  {
    assert [n][0] == n;
  }

  lemma LiveCounts(s: Progress, number: int, n: int)
    ensures Live(s, number).ledger == s.ledger + {number} && Live(s, number).checkpoint == Some(number)
    ensures multiset(Live(s, number).published)[n] == multiset(s.published)[n] + if n == number then 1 else 0
  {
  }

  /** How often an undisturbed restart from checkpoint a publishes a block. */
  lemma RestartCounts(s: Progress, lost: seq<int>, head: int, batch: nat, a: int, n: int)
    requires batch > 0 && s.checkpoint == Some(a) && a > 0
    ensures multiset(Start(s, Life(lost, head, NoCrash), batch).published)[n]
            == multiset(s.published)[n] + (if a + 1 < head && a + 1 <= n <= head then 1 else 0)
               + if Replayable(s, lost) && n in lost then 1 else 0
  {
    ReplayCounts(s, lost, n);
    hide Replay, Replayable, CatchUpFrom;
    if a + 1 < head { CatchUpCounts(Replay(s, lost), a + 1, head, batch, n); }
  }

  lemma CatchUpCounts(s: Progress, from: int, upTo: int, batch: nat, n: int)
    requires batch > 0 && from <= upTo && (s.checkpoint.Some? ==> s.checkpoint.value < from)
    ensures multiset(CatchUpFrom(s, from, upTo, batch, NoCrash).published)[n]
            == multiset(s.published)[n] + if from <= n <= upTo then 1 else 0
  {
    hide CatchUpFrom, Range;
    var p := CatchUpReaches(s, from, upTo, batch, NoCrash);
    RangeMembers(from, upTo, n);
    assert multiset(s.published + Range(from, upTo)) == multiset(s.published) + multiset(Range(from, upTo));
  }

  lemma ReplayCounts(s: Progress, lost: seq<int>, n: int)
    ensures Replay(s, lost).checkpoint == s.checkpoint
    ensures multiset(Replay(s, lost).published)[n]
            == multiset(s.published)[n] + if Replayable(s, lost) && n in lost then 1 else 0
  {
    if Replayable(s, lost) {
      AscendingOnce(lost, n);
      assert multiset(s.published + lost) == multiset(s.published) + multiset(lost);
    }
  }

  lemma LiveCoverage(s: Progress, first: int, ns: seq<int>)
    requires ns != [] && forall i :: 0 <= i < |ns| ==> ns[i] <= ns[|ns| - 1]
    ensures Covered(LiveAll(s, ns), first)
            <==> forall m :: first <= m < ns[|ns| - 1] ==> m in s.published || m in ns
  {
    var front, last := ns[..|ns| - 1], ns[|ns| - 1];
    LiveKeepsCoverage(LiveAll(s, front), first, last);
    forall m | first <= m < last ensures m in LiveAll(s, front).published <==> m in s.published || m in ns {
      LivePublishes(s, front, m);
      assert ns == front + [last];
    }
  }

  /** From start-up on. The head is read once, catch-up goes to that head, and only then does the
      subscription begin; what is mined in between arrives as neither (a replay of lost blocks, which have
      ledger rows and so were published, makes no difference). With everything below the start
      block published, and after any live blocks above the head (the highest of them last), every block up
      to the checkpoint has been published if and only if
      - the head was not the start block itself, or that block was published before, and
      - no block above the head and below the last live one was missed by both. */
  lemma StartupCoverage(s: Progress, lost: seq<int>, head: int, batch: nat, ns: seq<int>)
    requires batch > 0 && s.ledger <= (set n | n in s.published)
    requires forall m :: EARLIEST_DEPLOY_BLOCK <= m < ResolveStart(s.checkpoint) ==> m in s.published
    requires EARLIEST_DEPLOY_BLOCK <= ResolveStart(s.checkpoint)
    requires ns != [] && forall i :: 0 <= i < |ns| ==> head < ns[i] <= ns[|ns| - 1]
    ensures Covered(LiveAll(Start(s, Life(lost, head, NoCrash), batch), ns), EARLIEST_DEPLOY_BLOCK)
            <==> && (head != ResolveStart(s.checkpoint) || ResolveStart(s.checkpoint) in s.published)
                 && forall m :: EARLIEST_DEPLOY_BLOCK <= m && head < m < ns[|ns| - 1] ==> m in s.published || m in ns
  {
    hide *;
    var u, last := Start(s, Life(lost, head, NoCrash), batch), ns[|ns| - 1];
    LiveCoverage(u, EARLIEST_DEPLOY_BLOCK, ns);
    forall m | EARLIEST_DEPLOY_BLOCK <= m < last
      ensures m in u.published
              <==> m in s.published || (ResolveStart(s.checkpoint) <= m <= head && ResolveStart(s.checkpoint) != head)
    {
      StartPublishes(s, lost, head, batch, m);
    }
    assert forall m :: m in ns ==> m > head;
    assert last in ns;
    if head == ResolveStart(s.checkpoint) {
      assert head in u.published <==> head in s.published;
    }
  }
}
