/** The two loops of a processor, run against the delivery machine: every command they issue is an
    enabled step of it, with any steps of the other processes in between. */
module DeliveryLoops {
  import opened Base
  import opened Delivery

  /** Steps of the environment: time, appends, and other consumers. */
  predicate Foreign(t: Step, c: nat) {
    t.Append? || t.Tick? || t.c != c
  }

  predicate AllForeign(ts: seq<Step>, c: nat) {
    forall i :: 0 <= i < |ts| ==> Foreign(ts[i], c)
  }

  predicate NoReads(ts: seq<Step>) {
    forall i :: 0 <= i < |ts| ==> !ts[i].Read?
  }

  /** Between states of a stretch without reads: what remains does not grow, and stays the same only
      if the pending list did; time does not go back. */
  ghost predicate Progress(s: State, u: State) {
    && Remaining(u) <= Remaining(s)
    && (u.pending != s.pending ==> Remaining(u) < Remaining(s))
    && u.clock >= s.clock
  }

  lemma ForeignStep(s: State, t: Step, c: nat)
    requires Invariant(s) && c < |s.consumers| && Foreign(t, c)
    ensures var u := Exec(s, t);
            && Invariant(u) && |u.consumers| == |s.consumers| && u.consumers[c] == s.consumers[c]
            && (!t.Read? ==> Progress(s, u))
  {
    InvariantStep(s, t);
    StepFrame(s, t, c);
    hide Exec, Invariant;
    if !t.Read? { RemainingStep(s, t); }
  }

  lemma StepFrame(s: State, t: Step, c: nat)
    requires c < |s.consumers| && Foreign(t, c)
    ensures var u := Exec(s, t);
            |u.consumers| == |s.consumers| && u.consumers[c] == s.consumers[c] && u.clock >= s.clock
  {
    hide Oldest, Idle, Look, Acknowledge, ClaimRow, PassFailed, AttemptFailed, NextSeen;
    if (t.Ack? || t.AckLetter? || t.Claim?) && Enabled(s, t) {
      Served(s, t.c, if t.Ack? then s.consumers[t.c].next else s.consumers[t.c].stale[0].id);
    }
  }

  lemma {:induction false} ForeignRun(s: State, ts: seq<Step>, c: nat)
    requires Invariant(s) && c < |s.consumers| && AllForeign(ts, c)
    ensures var u := Run(s, ts);
            && Invariant(u) && |u.consumers| == |s.consumers| && u.consumers[c] == s.consumers[c]
            && (NoReads(ts) ==> Progress(s, u))
  {
    hide Exec, Invariant, Remaining;
    if ts != [] {
      var front := ts[..|ts| - 1];
      ForeignRun(s, front, c);
      ForeignStep(Run(s, front), ts[|ts| - 1], c);
      assert NoReads(ts) ==> NoReads(front);
    }
  }

  lemma {:induction false} RunConcat(s: State, a: seq<Step>, b: seq<Step>)
    ensures Run(s, a + b) == Run(Run(s, a), b)
  {
    hide Exec;
    if b == [] {
      assert a + b == a;
    } else {
      RunConcat(s, a, b[..|b| - 1]);
      assert (a + b)[..|a + b| - 1] == a + b[..|b| - 1];
    }
  }

  class Group {
    ghost const start: State
    var state: State
    ghost var trace: seq<Step>

    ghost predicate Valid()
      reads this
    {
      state == Run(start, trace) && Invariant(state)
    }

    constructor (s: State)
      requires Invariant(s)
      ensures Valid() && start == s && state == s
    {
      start, state, trace := s, s, [];
    }

    /** One command of consumer c. */
    method Do(c: nat, t: Step)
      requires Valid() && Enabled(state, t) && !t.Append? && !t.Tick? && t.c == c
      modifies this
      ensures Valid() && state == Exec(old(state), t) && |state.consumers| == |old(state).consumers|
      ensures !t.Read? ==> Progress(old(state), state)
    {
      hide Exec, Invariant, Enabled, Remaining;
      RunSnoc(start, trace, t);
      InvariantStep(state, t);
      if !t.Read? { RemainingStep(state, t); }
      OwnClock(state, t);
      state := Exec(state, t);
      trace := trace + [t];
    }

    /** What the other processes do before c's next command. */
    method Interleave(c: nat, ts: seq<Step>)
      requires Valid() && c < |state.consumers| && AllForeign(ts, c)
      modifies this
      ensures Valid() && state == Run(old(state), ts)
      ensures |state.consumers| == |old(state).consumers| && state.consumers[c] == old(state).consumers[c]
      ensures NoReads(ts) ==> Progress(old(state), state)
    {
      hide Exec, Invariant, Run;
      RunConcat(start, trace, ts);
      ForeignRun(state, ts, c);
      state := Run(state, ts);
      trace := trace + ts;
    }
  }

  lemma OwnClock(s: State, t: Step)
    ensures Exec(s, t).clock >= s.clock
  {
    hide Oldest, Idle, Look;
  }

  /** The ids found so far, ascending and below everything that is left. */
  ghost predicate Found(pending: set<nat>, ids: seq<nat>, rest: set<nat>) {
    && (forall x :: x in pending <==> x in rest || x in ids)
    && (forall x :: x in rest ==> x !in ids)
    && |rest| + |ids| == |pending|
    && (forall i, j :: 0 <= i < j < |ids| ==> ids[i] < ids[j])
    && (forall x, y :: x in ids && y in rest ==> x < y)
  }

  lemma FindNext(pending: set<nat>, ids: seq<nat>, rest: set<nat>, m: nat)
    requires Found(pending, ids, rest) && m in rest && forall x :: x in rest ==> m <= x
    ensures Found(pending, ids + [m], rest - {m})
  {
    assert forall x :: x in ids + [m] <==> x in ids || x == m;
    forall i, j | 0 <= i < j < |ids + [m]| ensures (ids + [m])[i] < (ids + [m])[j] {
      assert ids[i] in ids;
    }
  }

  lemma FoundOldest(pending: map<nat, Entry>, ids: seq<nat>, rest: set<nat>)
    requires Found(pending.Keys, ids, rest)
    requires |ids| == CLAIM_COUNT || (rest == {} && |ids| <= CLAIM_COUNT)
    ensures Oldest(pending, ids)
  {
    assert |pending.Keys| == |pending|;
    assert forall i :: 0 <= i < |ids| ==> ids[i] in ids;
  }

  method FindOldest(pending: map<nat, Entry>) returns (ids: seq<nat>)
    ensures Oldest(pending, ids)
  {
    hide Found;
    ids := [];
    var rest := pending.Keys;
    FoundNothing(rest);
    while rest != {} && |ids| < CLAIM_COUNT
      invariant Found(pending.Keys, ids, rest) && |ids| <= CLAIM_COUNT
      decreases rest
    {
      ghost var least := Least(rest);
      var m :| m in rest && forall x :: x in rest ==> m <= x;
      FindNext(pending.Keys, ids, rest, m);
      ids := ids + [m];
      rest := rest - {m};
    }
    FoundOldest(pending, ids, rest);
  }

  lemma FoundNothing(s: set<nat>)
    ensures Found(s, [], s)
  {
  }

  lemma {:induction false} Least(s: set<nat>) returns (m: nat)
    requires s != {}
    ensures m in s && forall x :: x in s ==> m <= x
  {
    m :| m in s;
    if s != {m} {
      var l := Least(s - {m});
      assert forall x :: x in s ==> x == m || x in s - {m};
      if l < m { m := l; }
    }
  }

  /** The outcomes a pass meets: what the others do before its i-th command, whether handle returns,
      how commands end, and whether the queries of the claim loop answer: the two for the pending list
      (numbers 0 and 1) and the one before a dead letter. */
  datatype World = World(others: nat -> seq<Step>, handleOk: nat -> bool, reply: nat -> Reply, queryOk: nat -> bool)

  ghost predicate FairWorld(w: World, c: nat) {
    forall i :: AllForeign(w.others(i), c)
  }

  ghost predicate Quiet(w: World) {
    forall i :: NoReads(w.others(i))
  }

  ghost predicate NoErrors(w: World) {
    forall i :: w.reply(i) == Done && w.queryOk(i)
  }

  /** Done with: out of every read loop's hands, and handled and acked or tried three times. */
  ghost predicate Settled(s: State, id: nat) {
    Abandoned(s, id) && (Count(s.attempts, id) == HANDLE_ATTEMPTS || (id in s.succeeded && id in s.acked))
  }

  ghost predicate AllSettled(s: State, lo: nat, hi: nat) {
    forall id :: lo <= id < hi ==> Settled(s, id)
  }

  lemma AckedStays(s: State, t: Step)
    ensures s.acked <= Exec(s, t).acked
  {
    hide Oldest, Idle, Look;
  }

  lemma SettledStep(s: State, t: Step, lo: nat, hi: nat)
    requires Invariant(s) && AllSettled(s, lo, hi)
    ensures AllSettled(Exec(s, t), lo, hi)
  {
    hide Exec, Abandoned;
    forall id | lo <= id < hi ensures Settled(Exec(s, t), id) {
      assert Settled(s, id);
      AbandonedStep(s, t, id);
      AckedStays(s, t);
    }
  }

  lemma {:induction false} SettledRun(s: State, ts: seq<Step>, lo: nat, hi: nat)
    requires Invariant(s) && AllSettled(s, lo, hi)
    ensures AllSettled(Run(s, ts), lo, hi)
  {
    hide Exec, Invariant, AllSettled;
    if ts != [] {
      SettledRun(s, ts[..|ts| - 1], lo, hi);
      InvariantRun(s, ts[..|ts| - 1]);
      SettledStep(Run(s, ts[..|ts| - 1]), ts[|ts| - 1], lo, hi);
    }
  }

  /** A read loop moves on only from a settled message. */
  lemma MovingOnSettles(s: State, t: Step, c: nat, lo: nat)
    requires Invariant(s) && c < |s.consumers| && Reading(s.consumers[c]) && Enabled(s, t)
    requires t.Handle? || t.Ack?
    requires t.c == c && Exec(s, t).consumers[c].next == s.consumers[c].next + 1
    requires AllSettled(s, lo, s.consumers[c].next)
    ensures AllSettled(Exec(s, t), lo, s.consumers[c].next + 1)
  {
    var id, u := s.consumers[c].next, Exec(s, t);
    SettledStep(s, t, lo, id);
    hide Exec, Invariant, Settled, Enabled;
    LastTry(s, t, c);
    assert Settled(u, id);
  }

  /** A read loop leaves a message after the third try, or handled and acked. */
  lemma LastTry(s: State, t: Step, c: nat)
    requires Invariant(s) && c < |s.consumers| && Reading(s.consumers[c]) && Enabled(s, t)
    requires t.Handle? || t.Ack?
    requires t.c == c && Exec(s, t).consumers[c].next == s.consumers[c].next + 1
    ensures Settled(Exec(s, t), s.consumers[c].next)
  {
    var id, u := s.consumers[c].next, Exec(s, t);
    AloneInHand(s, c);
    hide Invariant;
    if t.Handle? {
      TriedThrice(s, t.ok, c);
    } else {
      AckedOrTried(s, t.reply, c);
    }
  }

  /** What the invariant says of a message in hand. */
  lemma AloneInHand(s: State, c: nat)
    requires Invariant(s) && c < |s.consumers| && Reading(s.consumers[c])
    ensures var x := s.consumers[c];
            && x.next < s.cursor && (x.next in s.pending || x.next in s.acked)
            && (x.handled ==> x.next in s.succeeded)
            && Count(s.attempts, x.next) == x.attempt - 1 + (if x.handled then 1 else 0) && x.attempt <= HANDLE_ATTEMPTS
            && forall d :: 0 <= d < |s.consumers| && d != c ==> !(s.consumers[d].next <= x.next < s.consumers[d].end)
  {
    assert InHand(s, s.consumers[c]);
    forall d | 0 <= d < |s.consumers| && d != c ensures !(s.consumers[d].next <= s.consumers[c].next < s.consumers[d].end) {
      assert Apart(s.consumers[c], s.consumers[d]);
    }
  }

  /** In no other read loop's hands. */
  ghost predicate OnlyIn(s: State, c: nat, id: nat) {
    id < s.cursor && forall d :: 0 <= d < |s.consumers| && d != c ==> !(s.consumers[d].next <= id < s.consumers[d].end)
  }

  lemma TriedThrice(s: State, ok: bool, c: nat)
    requires c < |s.consumers| && Reading(s.consumers[c]) && Enabled(s, Handle(c, ok)) && OnlyIn(s, c, s.consumers[c].next)
    requires Count(s.attempts, s.consumers[c].next) == s.consumers[c].attempt - 1 && s.consumers[c].attempt <= HANDLE_ATTEMPTS
    requires Exec(s, Handle(c, ok)).consumers[c].next == s.consumers[c].next + 1
    ensures Settled(Exec(s, Handle(c, ok)), s.consumers[c].next)
  {
  }

  lemma AckedOrTried(s: State, reply: Reply, c: nat)
    requires c < |s.consumers| && Reading(s.consumers[c]) && Enabled(s, Ack(c, reply)) && OnlyIn(s, c, s.consumers[c].next)
    requires s.consumers[c].next in s.succeeded && (s.consumers[c].next in s.pending || s.consumers[c].next in s.acked)
    requires Count(s.attempts, s.consumers[c].next) == s.consumers[c].attempt && s.consumers[c].attempt <= HANDLE_ATTEMPTS
    requires Exec(s, Ack(c, reply)).consumers[c].next == s.consumers[c].next + 1
    ensures Settled(Exec(s, Ack(c, reply)), s.consumers[c].next)
  {
  }

  // ----- What each own command does to the loop that issues it -----

  lemma ReadEffect(s: State, c: nat, reply: Reply)
    requires c < |s.consumers| && !Reading(s.consumers[c]) && s.cursor < s.length
    ensures Enabled(s, Read(c, reply))
    ensures var y := Exec(s, Read(c, reply)).consumers[c];
            if reply == Done then y.next == s.cursor && y.end > s.cursor && y.end == Min(s.cursor + READ_COUNT, s.length)
                                  && y.attempt == 1 && !y.handled
            else y == s.consumers[c]
  {
  }

  lemma HandleEffect(s: State, c: nat, ok: bool)
    requires c < |s.consumers| && Reading(s.consumers[c]) && !s.consumers[c].handled
    ensures Enabled(s, Handle(c, ok))
    ensures var x := s.consumers[c];
            Exec(s, Handle(c, ok)).consumers[c] == if ok then x.(handled := true) else AttemptFailed(x)
  {
  }

  lemma AckEffect(s: State, c: nat, reply: Reply)
    requires c < |s.consumers| && Reading(s.consumers[c]) && s.consumers[c].handled
    ensures Enabled(s, Ack(c, reply))
    ensures var x := s.consumers[c];
            Exec(s, Ack(c, reply)).consumers[c] == if reply == Done then NextMessage(x) else AttemptFailed(x)
  {
  }

  lemma ScanEffect(s: State, c: nat, ids: seq<nat>)
    requires c < |s.consumers| && !Walking(s.consumers[c]) && Oldest(s.pending, ids)
    ensures Enabled(s, Scan(c, ids))
    ensures var y := Exec(s, Scan(c, ids)).consumers[c];
            && |y.stale| == |ids| && !y.letterWritten
            && forall i :: 0 <= i < |ids| ==> ids[i] in s.pending && y.stale[i].id == ids[i] && y.stale[i].idle == Idle(s, ids[i])
    ensures Exec(s, Scan(c, ids)).pending == s.pending
  {
  }

  lemma SkipEffect(s: State, c: nat)
    requires c < |s.consumers| && Walking(s.consumers[c]) && s.consumers[c].stale[0].idle < CLAIM_IDLE_MS
    ensures Enabled(s, Skip(c))
    ensures Exec(s, Skip(c)).consumers[c] == NextSeen(s.consumers[c])
  {
  }

  lemma LetterEffect(s: State, c: nat, rangeOk: bool)
    requires c < |s.consumers| && Walking(s.consumers[c]) && !s.consumers[c].letterWritten
    requires s.consumers[c].stale[0].idle >= CLAIM_IDLE_MS && s.consumers[c].stale[0].counter > MAX_DELIVERIES
    ensures Enabled(s, Letter(c, rangeOk))
    ensures var x := s.consumers[c];
            Exec(s, Letter(c, rangeOk)).consumers[c] == if rangeOk then x.(letterWritten := true) else PassFailed(x)
  {
  }

  lemma AckLetterEffect(s: State, c: nat, reply: Reply)
    requires c < |s.consumers| && Walking(s.consumers[c]) && s.consumers[c].letterWritten
    ensures Enabled(s, AckLetter(c, reply))
    ensures var x, u := s.consumers[c], Exec(s, AckLetter(c, reply));
            && u.consumers[c] == (if reply == Done then NextSeen(x) else PassFailed(x))
            && (reply == Done && x.stale[0].id in s.pending ==> u.pending != s.pending)
  {
    var id := s.consumers[c].stale[0].id;
    assert id in s.pending ==> id !in Acknowledge(s, id).pending;
  }

  lemma ClaimEffect(s: State, c: nat, reply: Reply)
    requires c < |s.consumers| && Walking(s.consumers[c])
    requires s.consumers[c].stale[0].idle >= CLAIM_IDLE_MS && s.consumers[c].stale[0].counter <= MAX_DELIVERIES
    ensures Enabled(s, Claim(c, reply))
    ensures var x, u := s.consumers[c], Exec(s, Claim(c, reply));
            && u.consumers[c] == (if reply == Done then NextSeen(x) else PassFailed(x))
            && (reply == Done && x.stale[0].id in s.pending && Idle(s, x.stale[0].id) >= CLAIM_IDLE_MS ==> u.pending != s.pending)
  {
    var id := s.consumers[c].stale[0].id;
    hide Idle;
    if id in s.pending && Idle(s, id) >= CLAIM_IDLE_MS {
      assert ClaimRow(s, c, id).pending[id].counter == s.pending[id].counter + 1;
    }
  }

  lemma StepSettles(s: State, t: Step, c: nat, lo: nat)
    requires Invariant(s) && c < |s.consumers| && Reading(s.consumers[c]) && Enabled(s, t)
    requires (t.Handle? || t.Ack?) && t.c == c && AllSettled(s, lo, s.consumers[c].next)
    ensures c < |Exec(s, t).consumers| && AllSettled(Exec(s, t), lo, Exec(s, t).consumers[c].next)
  {
    if Exec(s, t).consumers[c].next == s.consumers[c].next + 1 {
      MovingOnSettles(s, t, c, lo);
    } else {
      SettledStep(s, t, lo, s.consumers[c].next);
    }
  }

  lemma ReadNothing(s: State)
    requires Invariant(s)
    ensures s.cursor <= s.length
    ensures forall t: State :: Run(t, []) == t
  {
  }

  /** Among the ten oldest: fewer than ten pending ids are smaller. */
  ghost predicate OldIdle(s: State, id: nat) {
    && id in s.pending && Idle(s, id) >= CLAIM_IDLE_MS
    && |set j | j in s.pending && j < id| < CLAIM_COUNT
  }

  lemma {:induction false} Elements(ids: seq<nat>)
    requires forall i, j :: 0 <= i < j < |ids| ==> ids[i] < ids[j]
    ensures |set i | 0 <= i < |ids| :: ids[i]| == |ids|
  {
    if ids != [] {
      var front := ids[..|ids| - 1];
      Elements(front);
      assert (set i | 0 <= i < |ids| :: ids[i]) == (set i | 0 <= i < |front| :: front[i]) + {ids[|ids| - 1]};
    }
  }

  lemma SubsetSize(a: set<nat>, b: set<nat>)
    requires a <= b
    ensures |a| <= |b|
    ensures |a| == |b| ==> a == b
  {
    assert b == a + (b - a);
  }

  lemma OldListed(s: State, ids: seq<nat>, id: nat)
    requires Oldest(s.pending, ids) && OldIdle(s, id)
    ensures id in ids
  {
    var listed := set i | 0 <= i < |ids| :: ids[i];
    Elements(ids);
    if id !in ids {
      if |s.pending| < CLAIM_COUNT {
        SubsetSize(listed, s.pending.Keys);
      } else {
        forall i | 0 <= i < |ids| ensures ids[i] in s.pending && ids[i] < id {}
        assert listed <= set j | j in s.pending && j < id;
        SubsetSize(listed, set j | j in s.pending && j < id);
      }
    }
  }

  lemma StillIdle(s: State, u: State, id: nat)
    requires Progress(s, u) && Remaining(u) == Remaining(s) && id in s.pending
    ensures id in u.pending && Idle(u, id) >= Idle(s, id) && u.pending == s.pending
  {
  }

  class Processor {
    const group: Group
    const c: nat

    ghost predicate Ready()
      reads group
    {
      group.Valid() && c < |group.state.consumers|
    }

    constructor (group: Group, c: nat)
      ensures this.group == group && this.c == c
    {
      this.group, this.c := group, c;
    }

    /** One iteration of readLoop: read up to ten new entries, first..last, then up to three attempts on
        each. Every one of them ends handled and acked, or tried three times. */
    method ReadPass(w: World) returns (first: nat, last: nat)
      requires Ready() && !Reading(group.state.consumers[c])
      requires FairWorld(w, c)
      modifies group
      ensures Ready() && !Reading(group.state.consumers[c])
      ensures AllSettled(group.state, first, last)
      ensures w.others(0) == [] && w.reply(0) == Done ==>
                first == old(group.state.cursor) && last == Min(first + 10, old(group.state.length))
    {
      hide Exec, Invariant, Enabled, Settled, Remaining;
      first, last := 0, 0;
      var k: nat := 0;
      group.Interleave(c, w.others(k));
      ReadNothing(group.state);
      if group.state.cursor >= group.state.length {
        first := group.state.cursor;
        last := first;
        return;
      }
      ReadEffect(group.state, c, w.reply(k));
      first := group.state.cursor;
      group.Do(c, Read(c, w.reply(k)));
      if w.reply(k) != Done {
        last := first;
        return;
      }
      last := group.state.consumers[c].end;
      hide Run;
      k := k + 1;
      for id := first to last
        invariant Ready()
        invariant group.state.consumers[c] == group.state.consumers[c].(next := id, end := last, attempt := 1, handled := false)
        invariant AllSettled(group.state, first, id)
      {
        k := TryMessage(w, k, first);
      }
    }

    /** Up to three attempts on the message in hand. */
    method TryMessage(w: World, first: nat, ghost lo: nat) returns (k: nat)
      requires Ready() && FairWorld(w, c)
      requires Reading(group.state.consumers[c])
      requires group.state.consumers[c].attempt == 1 && !group.state.consumers[c].handled
      requires AllSettled(group.state, lo, group.state.consumers[c].next)
      modifies group
      ensures Ready()
      ensures var x, y := old(group.state).consumers[c], group.state.consumers[c];
              y.next == x.next + 1 && y.end == x.end && y.attempt == 1 && !y.handled
      ensures AllSettled(group.state, lo, group.state.consumers[c].next)
    {
      hide Exec, Run, Invariant, Enabled, AllSettled, Remaining, FairWorld;
      ghost var x := group.state.consumers[c];
      k := first;
      var handled := false;
      var attempt := 1;
      while attempt <= HANDLE_ATTEMPTS && !handled
        invariant Ready()
        invariant 1 <= attempt <= HANDLE_ATTEMPTS + 1
        invariant var y := group.state.consumers[c];
                  && y.end == x.end && !y.handled
                  && (if handled || attempt > HANDLE_ATTEMPTS then y.next == x.next + 1 && y.attempt == 1
                      else y.next == x.next && y.attempt == attempt)
        invariant AllSettled(group.state, lo, group.state.consumers[c].next)
        decreases HANDLE_ATTEMPTS - attempt, !handled
      {
        handled, k := TryOnce(w, k, lo);
        if !handled { attempt := attempt + 1; }
      }
    }

    /** One attempt: handle, then ack if it returned. */
    method TryOnce(w: World, first: nat, ghost lo: nat) returns (handled: bool, k: nat)
      requires Ready() && FairWorld(w, c)
      requires Reading(group.state.consumers[c]) && !group.state.consumers[c].handled
      requires AllSettled(group.state, lo, group.state.consumers[c].next)
      modifies group
      ensures Ready()
      ensures group.state.consumers[c] == if handled then NextMessage(old(group.state).consumers[c])
                                          else AttemptFailed(old(group.state).consumers[c])
      ensures AllSettled(group.state, lo, group.state.consumers[c].next)
    {
      hide Exec, Run, Invariant, Enabled, AllSettled, Remaining, Progress;
      k := first;
      var ok := w.handleOk(k);
      SettledRun(group.state, w.others(k), lo, group.state.consumers[c].next);
      group.Interleave(c, w.others(k));
      HandleEffect(group.state, c, ok);
      StepSettles(group.state, Handle(c, ok), c, lo);
      group.Do(c, Handle(c, ok));
      k := k + 1;
      if !ok { return false, k; }
      SettledRun(group.state, w.others(k), lo, group.state.consumers[c].next);
      group.Interleave(c, w.others(k));
      AckEffect(group.state, c, w.reply(k));
      StepSettles(group.state, Ack(c, w.reply(k)), c, lo);
      group.Do(c, Ack(c, w.reply(k)));
      handled := w.reply(k) == Done;
      k := k + 1;
    }

    /** One pass of claimLoop over the ten oldest pending rows. While nobody reads, a pass never raises
        what remains, and a pass without errors that finds one of them idle long enough lowers it. */
    method ClaimPass(w: World)
      requires Ready() && !Walking(group.state.consumers[c])
      requires FairWorld(w, c)
      modifies group
      ensures Ready() && !Walking(group.state.consumers[c])
      ensures |group.state.consumers| == |old(group.state).consumers|
      ensures Quiet(w) ==> Progress(old(group.state), group.state)
      ensures Quiet(w) && NoErrors(w) && (exists id :: OldIdle(old(group.state), id)) ==>
                Remaining(group.state) < Remaining(old(group.state))
    {
      hide Exec, Run, Invariant, Remaining, Oldest, Look, Enabled, Idle;
      var k: nat := 0;
      group.Interleave(c, w.others(k));
      if !w.queryOk(k) { return; }
      if |group.state.pending| == 0 {
        EmptyPending(old(group.state), group.state);
        return;
      }
      k := k + 1;
      group.Interleave(c, w.others(k));
      if !w.queryOk(k) { return; }
      ghost var scanned := group.state;
      var ids := FindOldest(group.state.pending);
      ScanEffect(group.state, c, ids);
      group.Do(c, Scan(c, ids));
      var stale := group.state.consumers[c].stale;
      for i := 0 to |stale|
        invariant Ready() && |group.state.consumers| == |old(group.state).consumers|
        invariant group.state.consumers[c].stale == stale[i..] && !group.state.consumers[c].letterWritten
        invariant Quiet(w) ==> Progress(scanned, group.state)
        invariant Quiet(w) && NoErrors(w) && (exists j :: 0 <= j < i && stale[j].idle >= CLAIM_IDLE_MS) ==>
                    Remaining(group.state) < Remaining(scanned)
      {
        var e := stale[i];
        assert e.id in scanned.pending && e.idle == Idle(scanned, e.id);
        assert stale[i..][0] == e && stale[i..][1..] == stale[i + 1..];
        if e.idle < CLAIM_IDLE_MS {
          SkipEffect(group.state, c);
          group.Do(c, Skip(c));
        } else {
          var goOn;
          goOn, k := ServeStale(w, k + 1, scanned);
          if !goOn { return; }
        }
      }
      OldIdleSeen(old(group.state), scanned, ids, stale);
    }

    /** Dead-letters or claims the first row left to walk, which was idle when scanned. */
    method ServeStale(w: World, first: nat, ghost scanned: State) returns (goOn: bool, k: nat)
      requires Ready() && FairWorld(w, c)
      requires Walking(group.state.consumers[c]) && !group.state.consumers[c].letterWritten
      requires var e := group.state.consumers[c].stale[0];
               e.idle >= CLAIM_IDLE_MS && e.id in scanned.pending && e.idle == Idle(scanned, e.id)
      requires Quiet(w) ==> Progress(scanned, group.state)
      modifies group
      ensures Ready() && |group.state.consumers| == |old(group.state).consumers|
      ensures var x, y := old(group.state).consumers[c], group.state.consumers[c];
              !y.letterWritten && y.stale == if goOn then x.stale[1..] else []
      ensures Quiet(w) ==> Progress(scanned, group.state)
      ensures Quiet(w) && NoErrors(w) ==> goOn && Remaining(group.state) < Remaining(scanned)
    {
      hide Exec, Run, Invariant, Remaining, Oldest, Look, Enabled, Idle;
      k := first;
      var e := group.state.consumers[c].stale[0];
      group.Interleave(c, w.others(k));
      ghost var before := group.state;
      if e.counter > MAX_DELIVERIES {
        LetterEffect(group.state, c, w.queryOk(k));
        group.Do(c, Letter(c, w.queryOk(k)));
        if !w.queryOk(k) { return false, k; }
        k := k + 1;
        group.Interleave(c, w.others(k));
        before := group.state;
        AckLetterEffect(group.state, c, w.reply(k));
        group.Do(c, AckLetter(c, w.reply(k)));
      } else {
        ClaimEffect(group.state, c, w.reply(k));
        group.Do(c, Claim(c, w.reply(k)));
      }
      if Quiet(w) && Remaining(before) == Remaining(scanned) { StillIdle(scanned, before, e.id); }
      goOn := w.reply(k) == Done;
    }
  }

  lemma EmptyPending(s: State, u: State)
    requires |u.pending| == 0
    ensures Progress(s, u) && (exists id :: OldIdle(s, id)) ==> Remaining(u) < Remaining(s)
  {
    assert forall id :: id !in u.pending;
  }

  /** An idle row among the ten oldest when the pass began is seen idle by the scan, or what remains
      has already dropped. */
  lemma OldIdleSeen(s: State, u: State, ids: seq<nat>, stale: seq<Seen>)
    requires Oldest(u.pending, ids) && |stale| == |ids|
    requires forall i :: 0 <= i < |ids| ==> ids[i] in u.pending && stale[i].idle == Idle(u, ids[i])
    ensures Progress(s, u) && (exists id :: OldIdle(s, id)) ==>
              Remaining(u) < Remaining(s) || exists j :: 0 <= j < |stale| && stale[j].idle >= CLAIM_IDLE_MS
  {
    hide Remaining, Oldest;
    if Progress(s, u) && Remaining(u) == Remaining(s) && exists id :: OldIdle(s, id) {
      var id :| OldIdle(s, id);
      StillIdle(s, u, id);
      assert OldIdle(u, id);
      OldListed(u, ids, id);
      var j :| 0 <= j < |ids| && ids[j] == id;
      assert stale[j].idle >= CLAIM_IDLE_MS;
    }
  }

  /** After the idle time has passed, the oldest pending row is idle. */
  lemma WaitedIdle(s: State)
    requires Invariant(s) && |s.pending| > 0
    ensures exists id :: OldIdle(Run(s, [Tick(CLAIM_IDLE_MS)]), id)
  {
    var u := Run(s, [Tick(CLAIM_IDLE_MS)]);
    assert u == Exec(s, Tick(CLAIM_IDLE_MS)) by {
      RunSnoc(s, [], Tick(CLAIM_IDLE_MS));
      assert [] + [Tick(CLAIM_IDLE_MS)] == [Tick(CLAIM_IDLE_MS)];
    }
    assert s.pending.Keys != {};
    var m := Least(s.pending.Keys);
    assert (set j | j in u.pending && j < m) == {};
    assert OldIdle(u, m);
  }

  /** Once reading stops, waiting out the idle time before each pass empties the pending list, whatever
      else each pass meets: at most as many passes as deliveries remained. */
  method Drain(p: Processor, ws: nat -> World) returns (passes: nat)
    requires p.Ready() && !Walking(p.group.state.consumers[p.c]) && |p.group.state.consumers| > 0
    requires forall i :: FairWorld(ws(i), p.c) && Quiet(ws(i)) && NoErrors(ws(i))
    modifies p.group
    ensures p.Ready() && p.group.state.pending == map[]
    ensures passes <= Remaining(old(p.group.state))
  {
    hide Remaining, Invariant, Run, Exec, Idle;
    passes := 0;
    RemainingNonNegative(p.group.state);
    ghost var total := Remaining(p.group.state);
    while |p.group.state.pending| > 0
      invariant p.Ready() && !Walking(p.group.state.consumers[p.c]) && |p.group.state.consumers| > 0
      invariant passes + Remaining(p.group.state) <= total && 0 <= Remaining(p.group.state)
      decreases Remaining(p.group.state)
    {
      WaitedIdle(p.group.state);
      p.group.Interleave(p.c, [Tick(CLAIM_IDLE_MS)]);
      p.ClaimPass(ws(passes));
      passes := passes + 1;
      RemainingNonNegative(p.group.state);
    }
  }
}
