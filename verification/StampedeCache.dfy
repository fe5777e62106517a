/** The cache-aside helper with its stampede lock, for any number of concurrent callers of one key:
    a state machine over its Redis commands and fetches, and the caller's code run against it. */
module StampedeCache {
  import opened Base

  const LOCK_MAX_RETRIES := 100

  datatype Phase =
    | Begin                             // about to read the cache
    | Missed                            // about to try the lock
    | Guarded                           // holds the lock, about to fetch
    | GuardedGot(value: int)            // about to write the cache
    | Releasing(result: Option<int>)    // in `finally`, about to delete the lock; None: an error is on its way
    | Waiting(i: nat)                   // about to poll for the i-th time
    | Fallback                          // gave up waiting, about to fetch without the lock
    | FallbackGot(value: int)           // about to write the cache
    | Returned(value: int)
    | Threw
    | Dead

  datatype Caller = Caller(phase: Phase, fetches: nat, polls: nat)

  /** `lock` names the caller whose SET created the lock key; the key itself does not. `fetched` is
      every value a fetch of this key has returned. */
  datatype State = State(cache: Option<int>, lock: Option<nat>, callers: seq<Caller>, fetched: set<int>)

  datatype Step =
    | LookUp(c: nat)
    | TryLock(c: nat)
    | Fetch(c: nat, value: int)
    | Store(c: nat)
    | Release(c: nat)
    | Poll(c: nat)
    | GiveUp(c: nat)
    | Fail(c: nat, applied: bool)       // the caller's next command or fetch throws
    | Crash(c: nat)
    | CacheDrop                         // expiry or invalidation
    | LockExpire

  predicate InGuard(p: Phase) { p.Guarded? || p.GuardedGot? || p.Releasing? }

  predicate Finished(p: Phase) { p.Returned? || p.Threw? || p.Dead? }

  predicate Own(t: Step) { !t.CacheDrop? && !t.LockExpire? }

  /** Is this the kind of step a caller in phase p takes? */
  predicate Fits(p: Phase, t: Step) {
    match t
    case LookUp(_) => p.Begin?
    case TryLock(_) => p.Missed?
    case Fetch(_, _) => p.Guarded? || p.Fallback?
    case Store(_) => p.GuardedGot? || p.FallbackGot?
    case Release(_) => p.Releasing?
    case Poll(_) => p.Waiting? && p.i < LOCK_MAX_RETRIES
    case GiveUp(_) => p.Waiting? && p.i >= LOCK_MAX_RETRIES
    case Fail(_, _) => !Finished(p)
    case Crash(_) => true
    case _ => false
  }

  predicate Enabled(s: State, t: Step) {
    Own(t) ==> t.c < |s.callers| && Fits(s.callers[t.c].phase, t)
  }

  function Move(s: State, c: nat, p: Phase): State
    requires c < |s.callers|
  {
    s.(callers := s.callers[c := s.callers[c].(phase := p)])
  }

  function CountFetch(s: State, c: nat): State
    requires c < |s.callers|
  {
    s.(callers := s.callers[c := s.callers[c].(fetches := s.callers[c].fetches + 1)])
  }

  /** The command that throws may still have taken effect on the server. */
  function Failed(s: State, c: nat, applied: bool): State
    requires c < |s.callers|
  {
    match s.callers[c].phase
    case Missed => Move(if applied && s.lock.None? then s.(lock := Some(c)) else s, c, Threw)
    case Guarded => Move(CountFetch(s, c), c, Releasing(None))
    case GuardedGot(v) => Move(if applied then s.(cache := Some(v)) else s, c, Releasing(None))
    case Releasing(_) => Move(if applied then s.(lock := None) else s, c, Threw)
    case Fallback => Move(CountFetch(s, c), c, Threw)
    case FallbackGot(v) => Move(if applied then s.(cache := Some(v)) else s, c, Threw)
    case _ => Move(s, c, Threw)
  }

  function Exec(s: State, t: Step): State {
    if !Enabled(s, t) then s
    else match t
      case LookUp(c) => Move(s, c, if s.cache.Some? then Returned(s.cache.value) else Missed)
      case TryLock(c) => if s.lock.None? then Move(s.(lock := Some(c)), c, Guarded) else Move(s, c, Waiting(0))
      case Fetch(c, v) =>
        Move(CountFetch(s, c).(fetched := s.fetched + {v}), c, if s.callers[c].phase.Guarded? then GuardedGot(v) else FallbackGot(v))
      case Store(c) =>
        (match s.callers[c].phase
         case GuardedGot(v) => Move(s.(cache := Some(v)), c, Releasing(Some(v)))
         case FallbackGot(v) => Move(s.(cache := Some(v)), c, Returned(v))
         case _ => s)
      // The delete is unconditional: it removes whatever lock is there.
      case Release(c) =>
        var r := s.callers[c].phase.result;
        Move(s.(lock := None), c, if r.Some? then Returned(r.value) else Threw)
      case Poll(c) =>
        var u := s.(callers := s.callers[c := s.callers[c].(polls := s.callers[c].polls + 1)]);
        Move(u, c, if s.cache.Some? then Returned(s.cache.value) else Waiting(s.callers[c].phase.i + 1))
      case GiveUp(c) => Move(s, c, Fallback)
      case Fail(c, applied) => Failed(s, c, applied)
      case Crash(c) => Move(s, c, Dead)
      case CacheDrop => s.(cache := None)
      case LockExpire => s.(lock := None)
  }

  function Run(s: State, ts: seq<Step>): State {
    if ts == [] then s else Exec(Run(s, ts[..|ts| - 1]), ts[|ts| - 1])
  }

  ghost predicate Start(s: State) {
    && (forall c :: 0 <= c < |s.callers| ==> s.callers[c] == Caller(Begin, 0, 0))
    && s.lock.None? && (s.cache.Some? ==> s.cache.value in s.fetched)
  }

  // ----- Values and bounds: in every run -----

  ghost predicate Genuine(s: State, p: Phase) {
    match p
    case GuardedGot(v) => v in s.fetched
    case FallbackGot(v) => v in s.fetched
    case Releasing(r) => r.Some? ==> r.value in s.fetched
    case Returned(v) => v in s.fetched
    case _ => true
  }

  predicate Counted(x: Caller) {
    && x.fetches <= 1 && x.polls <= LOCK_MAX_RETRIES
    && (x.phase.Begin? || x.phase.Missed? || x.phase.Guarded? || x.phase.Waiting? || x.phase.Fallback? ==> x.fetches == 0)
    && (x.phase.Waiting? ==> x.polls == x.phase.i)
    && (x.phase.Begin? || x.phase.Missed? || InGuard(x.phase) ==> x.polls == 0)
    && (x.phase.Fallback? || x.phase.FallbackGot? ==> x.polls == LOCK_MAX_RETRIES)
  }

  ghost predicate Honest(s: State) {
    && (s.cache.Some? ==> s.cache.value in s.fetched)
    && forall c :: 0 <= c < |s.callers| ==> Genuine(s, s.callers[c].phase) && Counted(s.callers[c])
  }

  lemma HonestStep(s: State, t: Step)
    requires Honest(s)
    ensures Honest(Exec(s, t)) && |Exec(s, t).callers| == |s.callers|
  {
    hide Honest;
    match t
    case CacheDrop => HonestDrop(s, t);
    case LockExpire => HonestDrop(s, t);
    case _ => if Enabled(s, t) { HonestMove(s, t); }
  }

  lemma HonestDrop(s: State, t: Step)
    requires Honest(s) && (t.CacheDrop? || t.LockExpire?)
    ensures Honest(Exec(s, t))
  {
  }

  lemma HonestMove(s: State, t: Step)
    requires Honest(s) && Enabled(s, t) && !t.CacheDrop? && !t.LockExpire?
    ensures Honest(Exec(s, t))
  {
    assert Genuine(s, s.callers[t.c].phase) && Counted(s.callers[t.c]);
    hide Exec, Honest, Genuine, Counted;
    HonestCache(s, t);
    MoverHonest(s, t);
    OthersStay(s, t);
    HonestAll(s, Exec(s, t), t.c);
  }

  lemma HonestCache(s: State, t: Step)
    requires Own(t) && Enabled(s, t) && Genuine(s, s.callers[t.c].phase)
    requires s.cache.Some? ==> s.cache.value in s.fetched
    ensures var u := Exec(s, t); s.fetched <= u.fetched && (u.cache.Some? ==> u.cache.value in u.fetched)
  {
  }

  lemma MoverHonest(s: State, t: Step)
    requires Own(t) && Enabled(s, t) && Genuine(s, s.callers[t.c].phase) && Counted(s.callers[t.c])
    requires s.cache.Some? ==> s.cache.value in s.fetched
    ensures var u := Exec(s, t); |u.callers| == |s.callers| && Genuine(u, u.callers[t.c].phase) && Counted(u.callers[t.c])
  {
  }

  lemma OthersStay(s: State, t: Step)
    requires Own(t) && Enabled(s, t)
    ensures var u := Exec(s, t);
            |u.callers| == |s.callers| && forall d :: 0 <= d < |s.callers| && d != t.c ==> u.callers[d] == s.callers[d]
  {
  }

  lemma HonestAll(s: State, u: State, c: nat)
    requires Honest(s) && c < |s.callers| == |u.callers| && s.fetched <= u.fetched
    requires u.cache.Some? ==> u.cache.value in u.fetched
    requires Genuine(u, u.callers[c].phase) && Counted(u.callers[c])
    requires forall d :: 0 <= d < |s.callers| && d != c ==> u.callers[d] == s.callers[d]
    ensures Honest(u)
  {
    hide Counted;
    forall d | 0 <= d < |u.callers| ensures Genuine(u, u.callers[d].phase) && Counted(u.callers[d]) {
      assert Genuine(s, s.callers[d].phase) && Counted(s.callers[d]);
    }
  }

  lemma {:induction false} HonestRun(s: State, ts: seq<Step>)
    requires Honest(s)
    ensures Honest(Run(s, ts)) && |Run(s, ts).callers| == |s.callers|
  {
    hide Exec, Honest;
    if ts != [] {
      HonestRun(s, ts[..|ts| - 1]);
      HonestStep(Run(s, ts[..|ts| - 1]), ts[|ts| - 1]);
    }
  }

  /** In every run, whatever fails, expires or crashes: a returned value came from some fetch of the
      key, a call polls at most 100 times and fetches at most once, and a call that fetches without the
      lock has polled 100 times first. */
  lemma CallsAreHonest(s: State, ts: seq<Step>, c: nat)
    requires Start(s) && c < |s.callers|
    ensures var u := Run(s, ts);
            && c < |u.callers|
            && var x := u.callers[c];
               && (x.phase.Returned? ==> x.phase.value in u.fetched)
               && x.polls <= 100 && x.fetches <= 1
               && (x.phase.Fallback? || x.phase.FallbackGot? ==> x.polls == 100)
  {
    HonestRun(s, ts);
    assert Genuine(Run(s, ts), Run(s, ts).callers[c].phase);
  }

  // ----- Mutual exclusion: when the lock never expires under a live holder -----

  ghost predicate Exclusive(s: State) {
    forall c :: 0 <= c < |s.callers| && InGuard(s.callers[c].phase) ==> s.lock == Some(c)
  }

  /** The lock expires only when its holder is no longer in the guarded section (crashed, or past a
      failed release). */
  predicate Timely(s: State, t: Step) {
    t.LockExpire? && s.lock.Some? && s.lock.value < |s.callers| ==> !InGuard(s.callers[s.lock.value].phase)
  }

  ghost predicate TimelyRun(s: State, ts: seq<Step>) {
    ts == [] || (TimelyRun(s, ts[..|ts| - 1]) && Timely(Run(s, ts[..|ts| - 1]), ts[|ts| - 1]))
  }

  lemma ExclusiveStep(s: State, t: Step)
    requires Exclusive(s) && Timely(s, t)
    ensures Exclusive(Exec(s, t))
  {
    hide Exec;
    if t.TryLock? || t.Release? || t.Fail? || t.LockExpire? {
      ExclusiveLock(s, t);
    } else {
      LockKept(s, t);
    }
  }

  lemma ExclusiveLock(s: State, t: Step)
    requires Exclusive(s) && Timely(s, t) && (t.TryLock? || t.Release? || t.Fail? || t.LockExpire?)
    ensures Exclusive(Exec(s, t))
  {
  }

  lemma LockKept(s: State, t: Step)
    requires !t.TryLock? && !t.Release? && !t.Fail? && !t.LockExpire?
    ensures var u := Exec(s, t);
            && u.lock == s.lock && |u.callers| == |s.callers|
            && forall c :: 0 <= c < |s.callers| && InGuard(u.callers[c].phase) ==> InGuard(s.callers[c].phase)
  {
  }

  lemma {:induction false} ExclusiveRun(s: State, ts: seq<Step>)
    requires Exclusive(s) && TimelyRun(s, ts)
    ensures Exclusive(Run(s, ts))
  {
    hide Exec, Exclusive, Timely;
    if ts != [] {
      ExclusiveRun(s, ts[..|ts| - 1]);
      ExclusiveStep(Run(s, ts[..|ts| - 1]), ts[|ts| - 1]);
    }
  }

  /** At most one live caller is in the guarded fetch, in every timely run. */
  lemma OneGuardedFetch(s: State, ts: seq<Step>, c: nat, d: nat)
    requires Start(s) && TimelyRun(s, ts)
    requires c < |Run(s, ts).callers| && d < |Run(s, ts).callers|
    requires InGuard(Run(s, ts).callers[c].phase) && InGuard(Run(s, ts).callers[d].phase)
    ensures c == d && Run(s, ts).lock == Some(c)
  {
    ExclusiveRun(s, ts);
  }

  /** Timeliness is needed: wherever a live holder is in the guarded section and another caller is about
      to try the lock, an expiry lets both in. Once that has happened, the first holder's release deletes
      the second one's lock, and a third caller gets in beside the second without any further expiry. */
  lemma ExpiryBreaksExclusion(s: State, a: nat, b: nat, c: nat)
    requires a < |s.callers| && b < |s.callers| && c < |s.callers| && a != b && b != c && a != c
    requires s.callers[a].phase.Releasing? && s.callers[b].phase.Missed? && s.callers[c].phase.Missed?
    ensures var u := Exec(Exec(s, LockExpire), TryLock(b));
            && InGuard(u.callers[a].phase) && InGuard(u.callers[b].phase)
            && var w := Exec(Exec(u, Release(a)), TryLock(c));
               InGuard(w.callers[b].phase) && InGuard(w.callers[c].phase)
  {
  }

  /** The condition is exact: where exclusion holds, an expiry followed by the next caller's try at the
      lock keeps it if and only if the expiry is timely; otherwise holder and newcomer are both let in. */
  lemma ExpiryAdmitsSecond(s: State, b: nat)
    requires b < |s.callers| && Exclusive(s) && s.callers[b].phase.Missed?
    ensures var u := Exec(Exec(s, LockExpire), TryLock(b));
            && (Exclusive(u) <==> Timely(s, LockExpire))
            && (!Timely(s, LockExpire) ==>
                  s.lock.value != b && InGuard(u.callers[s.lock.value].phase) && InGuard(u.callers[b].phase))
  {
    var u := Exec(Exec(s, LockExpire), TryLock(b));
    assert u.lock == Some(b) && InGuard(u.callers[b].phase);
    assert forall c :: 0 <= c < |s.callers| && c != b ==> u.callers[c] == s.callers[c];
  }

  // ----- One fetch per expiry -----

  predicate NoDrop(ts: seq<Step>) {
    forall i :: 0 <= i < |ts| ==> !ts[i].CacheDrop?
  }

  /** Nothing goes wrong: no command or fetch throws, nobody crashes, the cache is not dropped. */
  predicate Smooth(ts: seq<Step>) {
    forall i :: 0 <= i < |ts| ==> !ts[i].Fail? && !ts[i].Crash? && !ts[i].CacheDrop?
  }

  /** May this caller still fetch once the cache is filled? It is past its cache read, or its last poll. */
  predicate Late(p: Phase) {
    p.Missed? || p.Guarded? || p.Fallback? || (p.Waiting? && p.i >= LOCK_MAX_RETRIES)
  }

  /** What a filled cache settles for one caller: it stays filled, nobody misses it any more, and a caller
      that is not late fetches no more. */
  ghost predicate Filled(s: State, u: State, c: nat)
    requires c < |s.callers| && c < |u.callers|
  {
    && u.cache.Some?
    && (u.callers[c].phase.Missed? ==> s.callers[c].phase.Missed?)
    && (InGuard(u.callers[c].phase) ==> s.callers[c].phase.Missed? || InGuard(s.callers[c].phase))
    && (!Late(s.callers[c].phase) ==> !Late(u.callers[c].phase) && u.callers[c].fetches == s.callers[c].fetches)
  }

  lemma FilledStep(s: State, u: State, t: Step, c: nat)
    requires c < |s.callers| == |u.callers| && Filled(s, u, c) && !t.CacheDrop?
    ensures |Exec(u, t).callers| == |u.callers| && Filled(s, Exec(u, t), c)
  {
    if Own(t) && Enabled(u, t) && t.c != c {
      OthersStay(u, t);
      CacheStays(u, t);
      hide Exec;
    } else if Own(t) && Enabled(u, t) {
      CacheStays(u, t);
      OwnFilled(s, u, t, c);
      hide Exec;
    }
  }

  lemma CacheStays(u: State, t: Step)
    requires u.cache.Some? && !t.CacheDrop?
    ensures Exec(u, t).cache.Some?
  {
  }

  lemma OwnFilled(s: State, u: State, t: Step, c: nat)
    requires c < |s.callers| == |u.callers| && Filled(s, u, c) && Own(t) && Enabled(u, t) && t.c == c
    requires Exec(u, t).cache.Some?
    ensures |Exec(u, t).callers| == |u.callers| && Filled(s, Exec(u, t), c)
  {
  }

  lemma {:induction false} FilledRun(s: State, ts: seq<Step>, c: nat)
    requires s.cache.Some? && c < |s.callers| && NoDrop(ts)
    ensures |Run(s, ts).callers| == |s.callers| && Filled(s, Run(s, ts), c)
  {
    hide Exec, Filled;
    if ts == [] {
      FilledStart(s, c);
    } else {
      FilledRun(s, ts[..|ts| - 1], c);
      FilledStep(s, Run(s, ts[..|ts| - 1]), ts[|ts| - 1], c);
    }
  }

  lemma FilledStart(s: State, c: nat)
    requires s.cache.Some? && c < |s.callers|
    ensures Filled(s, s, c)
  {
  }

  lemma RunNext(s: State, ts: seq<Step>, t: Step)
    ensures Run(s, ts + [t]) == Exec(Run(s, ts), t)
    ensures TimelyRun(s, ts + [t]) <==> TimelyRun(s, ts) && Timely(Run(s, ts), t)
  {
    assert (ts + [t])[..|ts|] == ts;
  }

  /** Run ts of state s reaches u without a failure, a crash, a drop, or an expiry under a live holder. */
  ghost predicate Reaches(s: State, ts: seq<Step>, u: State) {
    Run(s, ts) == u && Smooth(ts) && TimelyRun(s, ts)
  }

  lemma Extend(s: State, ts: seq<Step>, u: State, t: Step) returns (more: seq<Step>)
    requires Reaches(s, ts, u) && Timely(u, t) && !t.Fail? && !t.Crash? && !t.CacheDrop?
    ensures Reaches(s, more, Exec(u, t))
  {
    more := ts + [t];
    RunNext(s, ts, t);
  }

  /** What a caller in the guarded section does next, when nothing goes wrong, and how far it has to go. */
  function GuardedStep(p: Phase, h: nat): Step
    requires InGuard(p)
  {
    if p.Guarded? then Fetch(h, 0) else if p.GuardedGot? then Store(h) else Release(h)
  }

  function StepsLeft(p: Phase): nat {
    if p.Guarded? then 3 else if p.GuardedGot? then 2 else 1
  }

  lemma GuardedMoves(s: State, h: nat, c: nat)
    requires h < |s.callers| && c < |s.callers| && h != c && InGuard(s.callers[h].phase)
    ensures var u := Exec(s, GuardedStep(s.callers[h].phase, h));
            && |u.callers| == |s.callers| && u.callers[c] == s.callers[c]
            && (if s.callers[h].phase.Releasing? then u.lock.None?
                else InGuard(u.callers[h].phase) && StepsLeft(u.callers[h].phase) < StepsLeft(s.callers[h].phase))
  {
  }

  lemma {:induction false} HolderReleases(s: State, done: seq<Step>, v: State, h: nat, c: nat) returns (ts: seq<Step>, u: State)
    requires Reaches(s, done, v) && h < |v.callers| && c < |v.callers| && h != c && InGuard(v.callers[h].phase)
    ensures Reaches(s, ts, u) && u.lock.None? && c < |u.callers| && u.callers[c] == v.callers[c]
    decreases StepsLeft(v.callers[h].phase)
  {
    hide Exec, Reaches;
    var t := GuardedStep(v.callers[h].phase, h);
    GuardedMoves(v, h, c);
    ts := Extend(s, done, v, t);
    u := Exec(v, t);
    if !v.callers[h].phase.Releasing? {
      ts, u := HolderReleases(s, ts, u, h, c);
    }
  }

  /** The lock can always become free: its holder goes on to the release, or it expires in time. */
  lemma LockFreed(s: State, c: nat) returns (ts: seq<Step>, u: State)
    requires c < |s.callers| && s.callers[c].phase.Missed?
    ensures Reaches(s, ts, u) && u.lock.None? && c < |u.callers| && u.callers[c] == s.callers[c]
  {
    ts, u := [], s;
    assert Reaches(s, ts, u);
    hide Reaches;
    if s.lock.Some? {
      var h := s.lock.value;
      if h < |s.callers| && InGuard(s.callers[h].phase) {
        ts, u := HolderReleases(s, ts, u, h, c);
      } else {
        ts := Extend(s, ts, u, LockExpire);
        u := Exec(u, LockExpire);
      }
    }
  }

  /** A late caller can fetch, and nothing need go wrong for it. */
  lemma LateCanFetch(s: State, c: nat) returns (ts: seq<Step>, u: State)
    requires c < |s.callers| && Late(s.callers[c].phase)
    ensures Reaches(s, ts, u) && c < |u.callers| && u.callers[c].fetches == s.callers[c].fetches + 1
  {
    ts, u := [], s;
    assert Reaches(s, ts, u);
    if s.callers[c].phase.Missed? {
      ts, u := LockFreed(s, c);
    }
    hide Reaches;
    var t := if u.callers[c].phase.Missed? then TryLock(c) else GiveUp(c);
    if u.callers[c].phase.Missed? || u.callers[c].phase.Waiting? {
      ts := Extend(s, ts, u, t);
      u := Exec(u, t);
    }
    ts := Extend(s, ts, u, Fetch(c, 0));
    u := Exec(u, Fetch(c, 0));
  }

  /** Who fetches once the cache is filled, exactly. Over all runs in which it is not dropped, a caller
      can fetch if and only if it is late: it read the cache before it was filled and is still to try the
      lock, it is already past that, or it has polled 100 times. It takes no failure and no untimely
      expiry, since the lock is taken without reading the cache again. */
  lemma FetchAfterFill(s: State, c: nat)
    requires s.cache.Some? && c < |s.callers|
    ensures (exists ts, u :: Reaches(s, ts, u) && |u.callers| == |s.callers| && u.callers[c].fetches != s.callers[c].fetches)
            <==> Late(s.callers[c].phase)
    ensures forall ts :: NoDrop(ts) ==>
              && |Run(s, ts).callers| == |s.callers|
              && (Run(s, ts).callers[c].fetches != s.callers[c].fetches ==> Late(s.callers[c].phase))
              && (InGuard(Run(s, ts).callers[c].phase) ==> s.callers[c].phase.Missed? || InGuard(s.callers[c].phase))
  {
    hide Run;
    forall ts | NoDrop(ts) ensures |Run(s, ts).callers| == |s.callers| && Filled(s, Run(s, ts), c) {
      FilledRun(s, ts, c);
    }
    if Late(s.callers[c].phase) {
      var ts, u := LateCanFetch(s, c);
      FilledRun(s, ts, c);
    }
  }

  /** Does the step enter the guarded section? */
  predicate Enters(s: State, t: Step) {
    t.TryLock? && Enabled(s, t) && s.lock.None?
  }

  /** How often a run enters the guarded section, and how often it does with the cache already filled. */
  function Entries(s: State, ts: seq<Step>): nat {
    if ts == [] then 0
    else Entries(s, ts[..|ts| - 1]) + if Enters(Run(s, ts[..|ts| - 1]), ts[|ts| - 1]) then 1 else 0
  }

  function StaleEntries(s: State, ts: seq<Step>): nat {
    if ts == [] then 0
    else
      var u := Run(s, ts[..|ts| - 1]);
      StaleEntries(s, ts[..|ts| - 1]) + if Enters(u, ts[|ts| - 1]) && u.cache.Some? then 1 else 0
  }

  /** A smooth run from an empty cache, after `entries` entries. */
  ghost predicate Cycle(s: State, entries: nat) {
    && Exclusive(s)
    && (s.lock.Some? ==> s.lock.value < |s.callers| && InGuard(s.callers[s.lock.value].phase))
    && (entries > 0 ==> s.lock.Some? || s.cache.Some?)
    && (entries == 0 ==> s.cache.None? && s.lock.None?
                         && forall c :: 0 <= c < |s.callers| ==> s.callers[c].phase.Begin? || s.callers[c].phase.Missed?)
    && forall c :: 0 <= c < |s.callers| && s.callers[c].phase.Releasing? ==> s.cache.Some?
  }

  lemma CycleStep(s: State, t: Step, entries: nat)
    requires Cycle(s, entries) && Timely(s, t) && !t.Fail? && !t.Crash? && !t.CacheDrop?
    ensures Cycle(Exec(s, t), entries + if Enters(s, t) then 1 else 0)
    ensures Enters(s, t) ==> (s.cache.Some? <==> entries > 0)
  {
  }

  lemma {:induction false} CycleRun(s: State, ts: seq<Step>)
    requires Start(s) && s.cache.None? && Smooth(ts) && TimelyRun(s, ts)
    ensures Cycle(Run(s, ts), Entries(s, ts))
    ensures Entries(s, ts) == StaleEntries(s, ts) + if Entries(s, ts) == 0 then 0 else 1
  {
    hide Exec, Cycle, Enters, Timely;
    if ts == [] {
      CycleStart(s);
    } else {
      var front := ts[..|ts| - 1];
      CycleRun(s, front);
      CycleStep(Run(s, front), ts[|ts| - 1], Entries(s, front));
    }
  }

  lemma CycleStart(s: State)
    requires Start(s) && s.cache.None?
    ensures Cycle(s, 0)
  {
  }

  /** One guarded fetch per expiry, exactly. In a run of fresh callers from an empty cache in which nothing
      goes wrong, the guarded section is entered once and again for every entry with the cache filled; so at
      most once if and only if there is none of those. Such an entrant had read the cache before it was
      filled: it was already about to try the lock at every earlier moment with the cache filled. */
  lemma OneFetchPerExpiry(s: State, ts: seq<Step>)
    requires Start(s) && s.cache.None? && Smooth(ts) && TimelyRun(s, ts)
    ensures Entries(s, ts) <= 1 <==> StaleEntries(s, ts) == 0
    ensures forall j, k :: 0 <= j <= k < |ts| && Run(s, ts[..j]).cache.Some? && Enters(Run(s, ts[..k]), ts[k]) ==>
              ts[k].c < |Run(s, ts[..j]).callers| && Run(s, ts[..j]).callers[ts[k].c].phase.Missed?
  {
    hide Run;
    CycleRun(s, ts);
    forall j, k | 0 <= j <= k < |ts| && Run(s, ts[..j]).cache.Some? && Enters(Run(s, ts[..k]), ts[k])
      ensures ts[k].c < |Run(s, ts[..j]).callers| && Run(s, ts[..j]).callers[ts[k].c].phase.Missed?
    {
      assert ts[..j] + ts[j..k] == ts[..k];
      assert NoDrop(ts[j..k]);
      StaleReader(s, ts[..j], ts[j..k], ts[k]);
    }
  }

  lemma StaleReader(s: State, a: seq<Step>, b: seq<Step>, t: Step)
    requires Run(s, a).cache.Some? && NoDrop(b) && Enters(Run(s, a + b), t)
    ensures t.c < |Run(s, a).callers| && Run(s, a).callers[t.c].phase.Missed?
  {
    hide Run;
    RunConcat(s, a, b);
    SameCallers(Run(s, a), b);
    FilledRun(Run(s, a), b, t.c);
  }

  lemma {:induction false} SameCallers(s: State, ts: seq<Step>)
    ensures |Run(s, ts).callers| == |s.callers|
  {
    if ts != [] { SameCallers(s, ts[..|ts| - 1]); }
  }

  /** So the lock alone does not give one fetch per expiry: from any two fresh callers and an empty, unlocked
      cache, both fetch within one smooth run without any expiry, the second without a single poll. */
  lemma TwoFetchesInOneExpiry(s: State, a: nat, b: nat, v: int, w: int)
    requires a < |s.callers| && b < |s.callers| && a != b && s.cache.None? && s.lock.None?
    requires s.callers[a] == Caller(Begin, 0, 0) == s.callers[b]
    ensures var ts := [LookUp(a), LookUp(b), TryLock(a), Fetch(a, v), Store(a), Release(a), TryLock(b), Fetch(b, w)];
            var u := Run(s, ts);
            && Smooth(ts) && TimelyRun(s, ts) && (forall t :: t in ts ==> !t.LockExpire?)
            && |u.callers| == |s.callers| && u.cache == Some(v)
            && u.callers[a].fetches == 1 && u.callers[b] == Caller(GuardedGot(w), 1, 0)
  {
    var ts := [LookUp(a), LookUp(b), TryLock(a), Fetch(a, v), Store(a), Release(a), TryLock(b), Fetch(b, w)];
    hide Run, Exec, TimelyRun;
    RunsOf(s, ts);
    NeverExpires(s, ts);
    var missed := Exec(Exec(s, LookUp(a)), LookUp(b));
    BothMiss(s, a, b);
    GuardedCall(missed, a, b, v);
    StaleCall(Exec(Exec(Exec(Exec(missed, TryLock(a)), Fetch(a, v)), Store(a)), Release(a)), a, b, w);
  }

  lemma BothMiss(s: State, a: nat, b: nat)
    requires a < |s.callers| && b < |s.callers| && a != b && s.cache.None?
    requires s.callers[a] == Caller(Begin, 0, 0) == s.callers[b]
    ensures var u := Exec(Exec(s, LookUp(a)), LookUp(b));
            && |u.callers| == |s.callers| && u.lock == s.lock
            && u.callers[a] == Caller(Missed, 0, 0) == u.callers[b]
  {
  }

  lemma StaleCall(s: State, a: nat, b: nat, w: int)
    requires a < |s.callers| && b < |s.callers| && a != b
    requires s.lock.None? && s.callers[b].phase.Missed?
    ensures var u := Exec(Exec(s, TryLock(b)), Fetch(b, w));
            && |u.callers| == |s.callers| && u.cache == s.cache && u.callers[a] == s.callers[a]
            && u.callers[b] == Caller(GuardedGot(w), s.callers[b].fetches + 1, s.callers[b].polls)
  {
  }

  /** An undisturbed guarded call leaves the cache filled, the lock free and the others where they were. */
  lemma GuardedCall(s: State, a: nat, b: nat, v: int)
    requires a < |s.callers| && b < |s.callers| && a != b
    requires s.lock.None? && s.callers[a].phase.Missed?
    ensures var u := Exec(Exec(Exec(Exec(s, TryLock(a)), Fetch(a, v)), Store(a)), Release(a));
            && |u.callers| == |s.callers| && u.cache == Some(v) && u.lock.None?
            && u.callers[b] == s.callers[b] && u.callers[a].fetches == s.callers[a].fetches + 1
  {
    var got := Exec(Exec(s, TryLock(a)), Fetch(a, v));
    assert got.callers[a] == Caller(GuardedGot(v), s.callers[a].fetches + 1, s.callers[a].polls);
    assert got.callers[b] == s.callers[b] && |got.callers| == |s.callers|;
  }

  lemma {:induction false} NeverExpires(s: State, ts: seq<Step>)
    requires forall i :: 0 <= i < |ts| ==> !ts[i].LockExpire?
    ensures TimelyRun(s, ts)
  {
    if ts != [] { NeverExpires(s, ts[..|ts| - 1]); }
  }

  /** Running a list of eight steps, one by one. */
  lemma RunsOf(s: State, ts: seq<Step>)
    requires |ts| == 8
    ensures Run(s, ts) == Exec(Exec(Exec(Exec(Exec(Exec(Exec(Exec(s, ts[0]), ts[1]), ts[2]), ts[3]), ts[4]), ts[5]), ts[6]), ts[7])
  {
    hide Exec;
    assert forall i :: 0 < i <= 8 ==> ts[..i][..i - 1] == ts[..i - 1] && ts[..i][i - 1] == ts[i - 1];
    assert ts[..8] == ts && ts[..0] == [];
    forall i | 0 < i <= 8 ensures Run(s, ts[..i]) == Exec(Run(s, ts[..i - 1]), ts[i - 1]) {}
    assert Run(s, ts[..0]) == s;
  }

  // ----- What an undisturbed call comes to -----

  /** A filled cache is returned at once; an empty one sends the caller to the lock. */
  lemma LookUpOutcome(s: State, c: nat)
    requires c < |s.callers| && s.callers[c].phase.Begin?
    ensures var u := Exec(s, LookUp(c));
            u == s.(callers := s.callers[c := s.callers[c].(phase := if s.cache.Some? then Returned(s.cache.value) else Missed)])
  {
  }

  /** Who gets the lock fetches, fills the cache, frees the lock and returns what it fetched. */
  lemma LeaderOutcome(s: State, c: nat, v: int)
    requires c < |s.callers| && s.callers[c].phase.Missed? && s.lock.None?
    ensures var u := Exec(Exec(Exec(Exec(s, TryLock(c)), Fetch(c, v)), Store(c)), Release(c));
            && u.cache == Some(v) && u.lock.None? && u.fetched == s.fetched + {v}
            && u.callers == s.callers[c := Caller(Returned(v), s.callers[c].fetches + 1, s.callers[c].polls)]
  {
    var got := Exec(Exec(s, TryLock(c)), Fetch(c, v));
    assert got.lock == Some(c) && got.fetched == s.fetched + {v};
    assert got.callers == s.callers[c := Caller(GuardedGot(v), s.callers[c].fetches + 1, s.callers[c].polls)];
  }

  /** Who finds the lock taken waits; each of up to 100 polls returns the cache if it is filled by then. */
  lemma FollowerOutcome(s: State, c: nat)
    requires c < |s.callers|
    ensures s.callers[c].phase.Missed? && s.lock.Some? ==>
              Exec(s, TryLock(c)) == s.(callers := s.callers[c := s.callers[c].(phase := Waiting(0))])
    ensures s.callers[c].phase.Waiting? && s.callers[c].phase.i < 100 ==>
              var x := s.callers[c];
              Exec(s, Poll(c))
              == s.(callers := s.callers[c := Caller(if s.cache.Some? then Returned(s.cache.value) else Waiting(x.phase.i + 1),
                                                     x.fetches, x.polls + 1)])
  {
  }

  /** When the guarded fetch or the write of the cache throws, the lock is freed before the call does, and only
      a write that reached the server is seen. */
  lemma LeaderFails(s: State, c: nat, applied: bool)
    requires c < |s.callers| && (s.callers[c].phase.Guarded? || s.callers[c].phase.GuardedGot?)
    ensures var x, u := s.callers[c], Exec(Exec(s, Fail(c, applied)), Release(c));
            && u.lock.None? && u.fetched == s.fetched
            && u.cache == (if x.phase.GuardedGot? && applied then Some(x.phase.value) else s.cache)
            && u.callers == s.callers[c := Caller(Threw, x.fetches + (if x.phase.Guarded? then 1 else 0), x.polls)]
  {
    var x, f := s.callers[c], Exec(s, Fail(c, applied));
    assert f.callers == s.callers[c := Caller(Releasing(None), x.fetches + (if x.phase.Guarded? then 1 else 0), x.polls)];
  }

  /** After the hundredth poll in vain the caller fetches, fills the cache and returns, whoever has the lock. */
  lemma FallbackOutcome(s: State, c: nat, v: int)
    requires c < |s.callers| && s.callers[c].phase == Waiting(100)
    ensures var u := Exec(Exec(Exec(s, GiveUp(c)), Fetch(c, v)), Store(c));
            && u.cache == Some(v) && u.lock == s.lock && u.fetched == s.fetched + {v}
            && u.callers == s.callers[c := Caller(Returned(v), s.callers[c].fetches + 1, s.callers[c].polls)]
  {
    var got := Exec(Exec(s, GiveUp(c)), Fetch(c, v));
    assert got.lock == s.lock && got.fetched == s.fetched + {v};
    assert got.callers == s.callers[c := Caller(FallbackGot(v), s.callers[c].fetches + 1, s.callers[c].polls)];
  }

  // ----- The caller's code -----

  predicate Foreign(t: Step, c: nat) {
    t.CacheDrop? || t.LockExpire? || t.c != c
  }

  predicate AllForeign(ts: seq<Step>, c: nat) {
    forall i :: 0 <= i < |ts| ==> Foreign(ts[i], c)
  }

  lemma ForeignStep(s: State, t: Step, c: nat)
    requires c < |s.callers| && Foreign(t, c)
    ensures |Exec(s, t).callers| == |s.callers| && Exec(s, t).callers[c] == s.callers[c]
  {
  }

  lemma {:induction false} ForeignRun(s: State, ts: seq<Step>, c: nat)
    requires c < |s.callers| && AllForeign(ts, c)
    ensures |Run(s, ts).callers| == |s.callers| && Run(s, ts).callers[c] == s.callers[c]
  {
    hide Exec;
    if ts != [] {
      ForeignRun(s, ts[..|ts| - 1], c);
      ForeignStep(Run(s, ts[..|ts| - 1]), ts[|ts| - 1], c);
    }
  }

  lemma {:induction false} RunConcat(s: State, a: seq<Step>, b: seq<Step>)
    ensures Run(s, a + b) == Run(Run(s, a), b)
  {
    hide Exec;
    if b == [] {
      assert a + b == a;
    } else {
      RunConcat(s, a, b[..|b| - 1]);
      assert (a + b)[..|a + b| - 1] == a + b[..|b| - 1];
    }
  }

  class Redis {
    ghost const start: State
    var state: State
    ghost var trace: seq<Step>

    ghost predicate Valid()
      reads this
    {
      state == Run(start, trace)
    }

    constructor (s: State)
      ensures Valid() && start == s && state == s
    {
      start, state, trace := s, s, [];
    }

    /** The others run, then caller c issues one enabled step. */
    method Do(c: nat, others: seq<Step>, t: Step)
      requires Valid() && c < |state.callers| && AllForeign(others, c)
      requires Own(t) && !t.Crash? && t.c == c && Fits(state.callers[c].phase, t)
      modifies this
      ensures Valid() && |state.callers| == |old(state).callers|
      ensures Leads(old(state).callers[c].phase, t, state.callers[c].phase)
      ensures trace == old(trace) + others + [t]
    {
      ForeignRun(state, others, c);
      var u := Run(state, others);
      RunConcat(start, trace, others);
      RunConcat(start, trace + others, [t]);
      assert [t][..0] == [];
      assert Run(u, [t]) == Exec(u, t);
      LeadsExec(u, t);
      state := Exec(u, t);
      trace := trace + others + [t];
    }
  }

  /** The phases a step can lead a caller to. */
  predicate Leads(p: Phase, t: Step, q: Phase) {
    match t
    case LookUp(_) => q.Missed? || q.Returned?
    case TryLock(_) => q.Guarded? || q == Waiting(0)
    case Fetch(_, v) => q == if p.Guarded? then GuardedGot(v) else FallbackGot(v)
    case Store(_) => (p.GuardedGot? && q == Releasing(Some(p.value))) || (p.FallbackGot? && q == Returned(p.value))
    case Release(_) => p.Releasing? && q == if p.result.Some? then Returned(p.result.value) else Threw
    case Poll(_) => p.Waiting? && (q.Returned? || q == Waiting(p.i + 1))
    case GiveUp(_) => q.Fallback?
    case Fail(_, _) => q == if p.Guarded? || p.GuardedGot? then Releasing(None) else Threw
    case Crash(_) => q.Dead?
    case _ => q == p
  }

  lemma LeadsExec(s: State, t: Step)
    requires Own(t) && Enabled(s, t)
    ensures |Exec(s, t).callers| == |s.callers|
    ensures Leads(s.callers[t.c].phase, t, Exec(s, t).callers[t.c].phase)
  {
  }

  /** What a call meets: the others' steps before its i-th command, which command throws (and whether it
      took effect), and what its fetch returns. */
  datatype World = World(others: nat -> seq<Step>, throws: nat -> bool, applied: nat -> bool, value: int)

  /** withCache, command by command: each is a step the machine allows the caller, with any steps of
      the others before it, and the call returns (or, for None, throws) what the machine says. */
  method WithCache(redis: Redis, c: nat, w: World) returns (r: Option<int>)
    requires redis.Valid() && c < |redis.state.callers| && redis.state.callers[c] == Caller(Begin, 0, 0)
    requires forall i :: AllForeign(w.others(i), c)
    modifies redis
    ensures redis.Valid() && c < |redis.state.callers|
    ensures redis.state.callers[c].phase == if r.Some? then Returned(r.value) else Threw
  {
    hide Run, Exec, AllForeign;
    var k: nat := 0;
    if w.throws(k) {
      redis.Do(c, w.others(k), Fail(c, w.applied(k)));
      return None;
    }
    redis.Do(c, w.others(k), LookUp(c));
    if redis.state.callers[c].phase.Returned? { return Some(redis.state.callers[c].phase.value); }
    k := k + 1;
    if w.throws(k) {
      redis.Do(c, w.others(k), Fail(c, w.applied(k)));
      return None;
    }
    redis.Do(c, w.others(k), TryLock(c));
    k := k + 1;
    var acquired := redis.state.callers[c].phase.Guarded?;
    if acquired {
      r := FetchGuarded(redis, c, w, k);
      return;
    }
    var i := 0;
    while i < LOCK_MAX_RETRIES
      invariant 0 <= i <= LOCK_MAX_RETRIES
      invariant redis.Valid() && c < |redis.state.callers| && redis.state.callers[c].phase == Waiting(i)
    {
      if w.throws(k) {
        redis.Do(c, w.others(k), Fail(c, w.applied(k)));
        return None;
      }
      redis.Do(c, w.others(k), Poll(c));
      k := k + 1;
      if redis.state.callers[c].phase.Returned? { return Some(redis.state.callers[c].phase.value); }
      i := i + 1;
    }
    redis.Do(c, w.others(k), GiveUp(c));
    if w.throws(k) {
      redis.Do(c, w.others(k), Fail(c, w.applied(k)));
      return None;
    }
    redis.Do(c, w.others(k), Fetch(c, w.value));
    k := k + 1;
    if w.throws(k) {
      redis.Do(c, w.others(k), Fail(c, w.applied(k)));
      return None;
    }
    redis.Do(c, w.others(k), Store(c));
    r := Some(w.value);
  }

  /** The guarded branch: try { fetch; write } finally { delete the lock }. */
  method FetchGuarded(redis: Redis, c: nat, w: World, first: nat) returns (r: Option<int>)
    requires redis.Valid() && c < |redis.state.callers| && redis.state.callers[c].phase.Guarded?
    requires forall i :: AllForeign(w.others(i), c)
    modifies redis
    ensures redis.Valid() && c < |redis.state.callers|
    ensures redis.state.callers[c].phase == if r.Some? then Returned(r.value) else Threw
  {
    hide Run, Exec, AllForeign;
    var k := first;
    r := None;
    if w.throws(k) {
      redis.Do(c, w.others(k), Fail(c, w.applied(k)));
    } else {
      redis.Do(c, w.others(k), Fetch(c, w.value));
      k := k + 1;
      if w.throws(k) {
        redis.Do(c, w.others(k), Fail(c, w.applied(k)));
      } else {
        redis.Do(c, w.others(k), Store(c));
        r := Some(w.value);
      }
    }
    k := k + 1;
    if w.throws(k) {
      redis.Do(c, w.others(k), Fail(c, w.applied(k)));
      r := None;
    } else {
      redis.Do(c, w.others(k), Release(c));
    }
  }
}
