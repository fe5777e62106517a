/** The consumer-group delivery protocol as a state machine: n consumers, each with its read
    loop and its claim loop, over one stream, its pending list and the handler's outcomes.
    Entries are numbered by their place in the stream. Pending entries are not trimmed. */
module Delivery {
  import opened Base
  import opened Sums

  const MAX_DELIVERIES := 5
  const CLAIM_IDLE_MS := 30_000
  const READ_COUNT := 10
  const CLAIM_COUNT := 10
  const HANDLE_ATTEMPTS := 3

  /** A row of the pending list: its owner, delivery counter and last delivery time. */
  datatype Entry = Entry(owner: nat, counter: nat, at: nat)

  /** A pending row as a claim loop saw it. */
  datatype Seen = Seen(id: nat, idle: nat, counter: nat)

  /** The local state of one process. The read loop still has the messages next..end in hand and
      is in attempt `attempt` at the first; `handled` says handle has returned and the ack is to come.
      The claim loop still has `stale` to walk; `letterWritten` says the dead-letter write for the
      first of them has been attempted and the ack is to come. */
  datatype Consumer = Consumer(next: nat, end: nat, attempt: nat, handled: bool,
                               stale: seq<Seen>, letterWritten: bool)

  const IDLE := Consumer(0, 0, 1, false, [], false)

  /** `succeeded`, `lettered`, `attempts` and `deliveries` are the history the claims speak of: the
      entries whose handle has returned, those a dead-letter write was attempted for, the tries of
      handle, and the deliveries (first read and claims) per entry. */
  datatype State = State(length: nat, cursor: nat, clock: nat,
                         pending: map<nat, Entry>, acked: set<nat>, consumers: seq<Consumer>,
                         succeeded: set<nat>, lettered: set<nat>,
                         attempts: map<nat, nat>, deliveries: map<nat, nat>)

  /** How a command ends for its caller: done, or an error, applied by the server or not. */
  datatype Reply = Done | Error(applied: bool)

  datatype Step =
    | Append
    | Tick(ms: nat)
    | Read(c: nat, reply: Reply)
    | Handle(c: nat, ok: bool)
    | Ack(c: nat, reply: Reply)
    | Scan(c: nat, ids: seq<nat>)
    | Skip(c: nat)
    | Letter(c: nat, rangeOk: bool)
    | AckLetter(c: nat, reply: Reply)
    | Claim(c: nat, reply: Reply)
    | Crash(c: nat)

  function Count(m: map<nat, nat>, id: nat): nat {
    if id in m then m[id] else 0
  }

  /** XPENDING - + 10: the ids of the at most ten oldest pending rows, in order. */
  predicate Oldest(pending: map<nat, Entry>, ids: seq<nat>) {
    && |ids| == (if |pending| < CLAIM_COUNT then |pending| else CLAIM_COUNT)
    && (forall i :: 0 <= i < |ids| ==> ids[i] in pending)
    && (forall i, j :: 0 <= i < j < |ids| ==> ids[i] < ids[j])
    && (forall i, id :: 0 <= i < |ids| && id in pending && id !in ids ==> ids[i] < id)
  }

  function Idle(s: State, id: nat): nat
    requires id in s.pending
  {
    if s.clock >= s.pending[id].at then s.clock - s.pending[id].at else 0
  }

  function Look(s: State, ids: seq<nat>): (seen: seq<Seen>)
    requires forall i :: 0 <= i < |ids| ==> ids[i] in s.pending
    ensures |seen| == |ids|
    ensures forall i :: 0 <= i < |ids| ==> seen[i] == Seen(ids[i], Idle(s, ids[i]), s.pending[ids[i]].counter)
  {
    seq(|ids|, i requires 0 <= i < |ids| => Seen(ids[i], Idle(s, ids[i]), s.pending[ids[i]].counter))
  }

  predicate Reading(c: Consumer) { c.next < c.end }

  predicate Walking(c: Consumer) { c.stale != [] }

  predicate Enabled(s: State, t: Step) {
    (t.Append? || t.Tick? || t.c < |s.consumers|)
    && match t
       case Append => true
       case Tick(_) => true
       case Read(c, _) => !Reading(s.consumers[c]) && s.cursor < s.length
       case Handle(c, _) => Reading(s.consumers[c]) && !s.consumers[c].handled
       case Ack(c, _) => Reading(s.consumers[c]) && s.consumers[c].handled
       case Scan(c, ids) => !Walking(s.consumers[c]) && Oldest(s.pending, ids)
       case Skip(c) => Walking(s.consumers[c]) && s.consumers[c].stale[0].idle < CLAIM_IDLE_MS
       case Letter(c, _) => Walking(s.consumers[c]) && !s.consumers[c].letterWritten
                            && s.consumers[c].stale[0].idle >= CLAIM_IDLE_MS
                            && s.consumers[c].stale[0].counter > MAX_DELIVERIES
       case AckLetter(c, _) => Walking(s.consumers[c]) && s.consumers[c].letterWritten
       case Claim(c, _) => Walking(s.consumers[c])
                           && s.consumers[c].stale[0].idle >= CLAIM_IDLE_MS
                           && s.consumers[c].stale[0].counter <= MAX_DELIVERIES
       case Crash(_) => true
  }

  function Update(s: State, c: nat, x: Consumer): State
    requires c < |s.consumers|
  {
    s.(consumers := s.consumers[c := x])
  }

  /** XACK: removes the row if it is still pending. */
  function Acknowledge(s: State, id: nat): State {
    if id in s.pending then s.(pending := s.pending - {id}, acked := s.acked + {id}) else s
  }

  /** The new rows of a read: counter 1, delivered now. */
  function ReadRows(s: State, c: nat, n: nat): State {
    s.(cursor := s.cursor + n,
       pending := map id | 0 <= id < s.cursor + n && (id in s.pending || s.cursor <= id) ::
                    if id < s.cursor then s.pending[id] else Entry(c, 1, s.clock),
       deliveries := map id | 0 <= id < s.cursor + n :: if id < s.cursor then Count(s.deliveries, id) else 1)
  }

  /** XCLAIM with the minimum idle time: a row that is gone or was delivered since is left alone. */
  function ClaimRow(s: State, c: nat, id: nat): State {
    if id in s.pending && Idle(s, id) >= CLAIM_IDLE_MS
    then s.(pending := s.pending[id := Entry(c, s.pending[id].counter + 1, s.clock)],
            deliveries := s.deliveries[id := Count(s.deliveries, id) + 1])
    else s
  }

  function NextMessage(x: Consumer): Consumer {
    x.(next := x.next + 1, attempt := 1, handled := false)
  }

  /** The catch block of the read loop: another attempt, or leave the entry unacked. */
  function AttemptFailed(x: Consumer): Consumer {
    if x.attempt >= HANDLE_ATTEMPTS then NextMessage(x) else x.(attempt := x.attempt + 1, handled := false)
  }

  function NextSeen(x: Consumer): Consumer
    requires x.stale != []
  {
    x.(stale := x.stale[1..], letterWritten := false)
  }

  /** The catch block of the claim loop gives up the pass. */
  function PassFailed(x: Consumer): Consumer {
    x.(stale := [], letterWritten := false)
  }

  /** One atomic step; a step that is not enabled changes nothing. */
  function Exec(s: State, t: Step): State {
    if !Enabled(s, t) then s
    else match t
      case Append => s.(length := s.length + 1)
      case Tick(ms) => s.(clock := s.clock + ms)
      case Read(c, reply) =>
        var n := if s.length - s.cursor < READ_COUNT then s.length - s.cursor else READ_COUNT;
        if reply == Error(false) then s
        else if reply == Error(true) then ReadRows(s, c, n)
        else Update(ReadRows(s, c, n), c, s.consumers[c].(next := s.cursor, end := s.cursor + n, attempt := 1, handled := false))
      case Handle(c, ok) =>
        var x := s.consumers[c];
        var tried := s.(attempts := s.attempts[x.next := Count(s.attempts, x.next) + 1]);
        if ok then Update(tried.(succeeded := s.succeeded + {x.next}), c, x.(handled := true))
        else Update(tried, c, AttemptFailed(x))
      case Ack(c, reply) =>
        var x := s.consumers[c];
        var served := if reply == Error(false) then s else Acknowledge(s, x.next);
        Update(served, c, if reply == Done then NextMessage(x) else AttemptFailed(x))
      case Scan(c, ids) => Update(s, c, s.consumers[c].(stale := Look(s, ids), letterWritten := false))
      case Skip(c) => Update(s, c, NextSeen(s.consumers[c]))
      case Letter(c, rangeOk) =>
        var x := s.consumers[c];
        if rangeOk then Update(s.(lettered := s.lettered + {x.stale[0].id}), c, x.(letterWritten := true))
        else Update(s, c, PassFailed(x))
      case AckLetter(c, reply) =>
        var x := s.consumers[c];
        var served := if reply == Error(false) then s else Acknowledge(s, x.stale[0].id);
        Update(served, c, if reply == Done then NextSeen(x) else PassFailed(x))
      case Claim(c, reply) =>
        var x := s.consumers[c];
        var served := if reply == Error(false) then s else ClaimRow(s, c, x.stale[0].id);
        Update(served, c, if reply == Done then NextSeen(x) else PassFailed(x))
      case Crash(c) => Update(s, c, IDLE)
  }

  function Run(s: State, ts: seq<Step>): State {
    if ts == [] then s else Exec(Run(s, ts[..|ts| - 1]), ts[|ts| - 1])
  }

  lemma RunSnoc(s: State, ts: seq<Step>, t: Step)
    ensures Run(s, ts + [t]) == Exec(Run(s, ts), t)
  {
    assert (ts + [t])[..|ts|] == ts;
  }

  ghost predicate Start(s: State) {
    && s.cursor == 0 && s.pending == map[] && s.acked == {} && s.succeeded == {} && s.lettered == {}
    && s.attempts == map[] && s.deliveries == map[]
    && forall c :: 0 <= c < |s.consumers| ==> s.consumers[c] == IDLE
  }

  // ----- What the commands do to a row of the pending list -----

  /** A read delivers the next ten entries at most, each for the first time, to the reader. */
  lemma ReadMeaning(s: State, c: nat, id: nat)
    requires Enabled(s, Read(c, Done))
    ensures var u, end := Exec(s, Read(c, Done)), if s.cursor + 10 < s.length then s.cursor + 10 else s.length;
            && u.cursor == end && u.consumers[c].next == s.cursor && u.consumers[c].end == end
            && Get(u.pending, id) == (if s.cursor <= id < end then Some(Entry(c, 1, s.clock)) else if id < s.cursor then Get(s.pending, id) else None)
            && Count(u.deliveries, id) == (if s.cursor <= id < end then 1 else if id < s.cursor then Count(s.deliveries, id) else 0)
            && u.acked == s.acked && u.lettered == s.lettered && u.succeeded == s.succeeded && u.attempts == s.attempts
  {
  }

  /** A claim that reaches the server delivers the row once more, to the claimer, if it is still pending and
      its last delivery is at least 30 seconds ago; otherwise, and for every other row, nothing happens. */
  lemma ClaimMeaning(s: State, c: nat, reply: Reply, id: nat)
    requires Enabled(s, Claim(c, reply))
    ensures var u, target := Exec(s, Claim(c, reply)), s.consumers[c].stale[0].id;
            var claimed := reply != Error(false) && id == target && id in s.pending && s.clock >= s.pending[id].at + 30_000;
            && Get(u.pending, id) == (if claimed then Some(Entry(c, s.pending[id].counter + 1, s.clock)) else Get(s.pending, id))
            && Count(u.deliveries, id) == Count(s.deliveries, id) + (if claimed then 1 else 0)
            && u.acked == s.acked && u.lettered == s.lettered && u.succeeded == s.succeeded && u.attempts == s.attempts
  {
  }

  /** An ack that reaches the server takes the row off the list; a lost one does not. */
  lemma AckMeaning(s: State, c: nat, reply: Reply, id: nat)
    requires Enabled(s, Ack(c, reply))
    ensures var u, target := Exec(s, Ack(c, reply)), s.consumers[c].next;
            && Get(u.pending, id) == (if reply != Error(false) && id == target then None else Get(s.pending, id))
            && (id in u.acked <==> id in s.acked || (reply != Error(false) && id == target && id in s.pending))
            && u.lettered == s.lettered && u.succeeded == s.succeeded && u.attempts == s.attempts && u.deliveries == s.deliveries
  {
  }

  /** A try of handle is counted, and its success noted; the pending list does not change. */
  lemma HandleMeaning(s: State, c: nat, ok: bool, id: nat)
    requires Enabled(s, Handle(c, ok))
    ensures var u, target := Exec(s, Handle(c, ok)), s.consumers[c].next;
            && Count(u.attempts, id) == Count(s.attempts, id) + (if id == target then 1 else 0)
            && (id in u.succeeded <==> id in s.succeeded || (ok && id == target))
            && u.pending == s.pending && u.acked == s.acked && u.deliveries == s.deliveries && u.lettered == s.lettered
  {
  }

  /** The ack after a dead-letter write takes its row off the list; the letter itself does not. */
  lemma LetterMeaning(s: State, c: nat, rangeOk: bool, reply: Reply, id: nat)
    requires c < |s.consumers| && Walking(s.consumers[c])
    ensures Enabled(s, Letter(c, rangeOk)) ==>
              var u := Exec(s, Letter(c, rangeOk));
              && s.consumers[c].stale[0].counter > 5 && s.consumers[c].stale[0].idle >= 30_000
              && u.pending == s.pending && u.acked == s.acked
              && (id in u.lettered <==> id in s.lettered || (rangeOk && id == s.consumers[c].stale[0].id))
    ensures Enabled(s, AckLetter(c, reply)) ==>
              var u, target := Exec(s, AckLetter(c, reply)), s.consumers[c].stale[0].id;
              && Get(u.pending, id) == (if reply != Error(false) && id == target then None else Get(s.pending, id))
              && (id in u.acked <==> id in s.acked || (reply != Error(false) && id == target && id in s.pending))
  {
    hide Idle, Look, Oldest;
  }

  /** Appending lengthens the stream by one entry; time passes; a crash forgets what the consumer had in hand
      and in view, and nothing else. */
  lemma WorldMeaning(s: State, ms: nat, c: nat)
    ensures Exec(s, Append) == s.(length := s.length + 1)
    ensures Exec(s, Tick(ms)) == s.(clock := s.clock + ms)
    ensures c < |s.consumers| ==> Exec(s, Crash(c)) == s.(consumers := s.consumers[c := Consumer(0, 0, 1, false, [], false)])
  {
  }

  // ----- Invariants, one concern at a time -----

  /** Each entry at or below the group cursor is exactly one of pending or acked. */
  ghost predicate Partitioned(s: State) {
    && s.cursor <= s.length
    && (forall id :: 0 <= id < s.cursor ==> (id in s.pending <==> id !in s.acked))
    && (forall id :: id in s.pending || id in s.acked ==> 0 <= id < s.cursor)
  }

  /** The messages in hand were read; the first has been tried as often as the loop says, and the
      rest not at all. */
  ghost predicate InHand(s: State, x: Consumer) {
    && x.end <= s.cursor && 1 <= x.attempt <= HANDLE_ATTEMPTS
    && (x.handled ==> Reading(x) && x.next in s.succeeded)
    && (Reading(x) ==> Count(s.attempts, x.next) == x.attempt - 1 + if x.handled then 1 else 0)
    && (forall id :: x.next < id < x.end ==> Count(s.attempts, id) == 0)
  }

  predicate Apart(x: Consumer, y: Consumer) {
    !Reading(x) || !Reading(y) || x.end <= y.next || y.end <= x.next
  }

  /** Each message in hand belongs to one read loop only, and no entry is tried more than three times. */
  ghost predicate Tried(s: State) {
    && (forall c :: 0 <= c < |s.consumers| ==> InHand(s, s.consumers[c]))
    && (forall c, d :: 0 <= c < |s.consumers| && 0 <= d < |s.consumers| && c != d ==> Apart(s.consumers[c], s.consumers[d]))
    && (forall id :: id in s.attempts ==> s.attempts[id] <= HANDLE_ATTEMPTS && id < s.cursor)
  }

  /** A claim loop has seen ids that were read, in order, with counters no higher than their
      deliveries, and is past the dead-letter write only for an entry it was attempted for. */
  ghost predicate SeenTrue(s: State, x: Consumer) {
    && (forall i :: 0 <= i < |x.stale| ==> x.stale[i].id < s.cursor && x.stale[i].counter <= Count(s.deliveries, x.stale[i].id))
    && (forall i, j :: 0 <= i < j < |x.stale| ==> x.stale[i].id < x.stale[j].id)
    && (x.letterWritten ==> x.stale != [] && x.stale[0].id in s.lettered)
  }

  /** Counters tell the truth: a pending row's counter is the number of its deliveries, the last of
      which is not in the future, and dead
      letters are written only past the limit. */
  ghost predicate Counted(s: State) {
    && (forall id :: id in s.pending ==> s.pending[id].counter == Count(s.deliveries, id) && s.pending[id].at <= s.clock)
    && (forall c :: 0 <= c < |s.consumers| ==> SeenTrue(s, s.consumers[c]))
    && (forall id :: id in s.lettered ==> id < s.cursor && Count(s.deliveries, id) > MAX_DELIVERIES)
  }

  /** Entries leave the pending list only handled or dead-lettered. */
  ghost predicate Justified(s: State) {
    s.acked <= s.succeeded + s.lettered
  }

  // What the commands leave alone.

  lemma Served(s: State, c: nat, id: nat)
    ensures var u := Acknowledge(s, id); u == s.(pending := u.pending, acked := u.acked)
    ensures var u := ClaimRow(s, c, id); u == s.(pending := u.pending, deliveries := u.deliveries)
  {
  }

  /** Steps that touch neither the cursor nor the pending list. */
  predicate Aside(t: Step) { !t.Read? && !t.Ack? && !t.AckLetter? && !t.Claim? }

  lemma AsideFrame(s: State, t: Step)
    requires Aside(t)
    ensures var u := Exec(s, t);
            && u.cursor == s.cursor && u.pending == s.pending && u.acked == s.acked && u.deliveries == s.deliveries
            && u.length >= s.length && u.clock >= s.clock && |u.consumers| == |s.consumers|
  {
    hide Oldest, Idle, Look, PassFailed, AttemptFailed, NextSeen;
  }

  lemma PartitionedServed(s: State, c: nat, id: nat)
    requires Partitioned(s)
    ensures Partitioned(Acknowledge(s, id)) && Partitioned(ClaimRow(s, c, id))
  {
  }

  lemma PartitionedReadRows(s: State, c: nat, n: nat)
    requires Partitioned(s) && s.cursor + n <= s.length
    ensures Partitioned(ReadRows(s, c, n))
  {
  }

  lemma PartitionedFrame(s: State, u: State)
    requires Partitioned(s)
    requires u.cursor == s.cursor && u.pending == s.pending && u.acked == s.acked && u.length >= s.length
    ensures Partitioned(u)
  {
  }

  lemma PartitionedStep(s: State, t: Step)
    requires Partitioned(s)
    ensures Partitioned(Exec(s, t)) && s.cursor <= Exec(s, t).cursor
    ensures |Exec(s, t).consumers| == |s.consumers|
  {
    hide Exec, Partitioned;
    if Aside(t) {
      AsideFrame(s, t);
      PartitionedFrame(s, Exec(s, t));
    } else if t.Read? {
      PartitionedRead(s, t.c, t.reply);
    } else {
      PartitionedServe(s, t);
    }
  }

  lemma PartitionedRead(s: State, c: nat, reply: Reply)
    requires Partitioned(s)
    ensures var u := Exec(s, Read(c, reply));
            Partitioned(u) && s.cursor <= u.cursor && |u.consumers| == |s.consumers|
  {
    if Enabled(s, Read(c, reply)) {
      var n := if s.length - s.cursor < READ_COUNT then s.length - s.cursor else READ_COUNT;
      PartitionedReadRows(s, c, n);
      hide Partitioned;
      PartitionedFrame(if reply == Error(false) then s else ReadRows(s, c, n), Exec(s, Read(c, reply)));
    }
  }

  lemma PartitionedServe(s: State, t: Step)
    requires Partitioned(s) && (t.Ack? || t.AckLetter? || t.Claim?)
    ensures Partitioned(Exec(s, t)) && Exec(s, t).cursor == s.cursor && |Exec(s, t).consumers| == |s.consumers|
  {
    hide Partitioned, Acknowledge, ClaimRow, PassFailed, AttemptFailed, NextSeen;
    if Enabled(s, t) {
      var id := if t.Ack? then s.consumers[t.c].next else s.consumers[t.c].stale[0].id;
      Served(s, t.c, id);
      PartitionedServed(s, t.c, id);
      var served := if t.reply == Error(false) then s else if t.Claim? then ClaimRow(s, t.c, id) else Acknowledge(s, id);
      PartitionedFrame(served, Exec(s, t));
    }
  }

  predicate SameReader(x: Consumer, y: Consumer) {
    x.next == y.next && x.end == y.end && x.attempt == y.attempt && x.handled == y.handled
  }

  /** Steps that concern no read loop, or end one, keep what is said about the read loops. */
  lemma TriedFrame(s: State, u: State)
    requires Tried(s)
    requires u.cursor == s.cursor && u.attempts == s.attempts && u.succeeded == s.succeeded
    requires |u.consumers| == |s.consumers|
    requires forall c :: 0 <= c < |s.consumers| ==> SameReader(s.consumers[c], u.consumers[c]) || u.consumers[c] == IDLE
    ensures Tried(u)
  {
    forall c | 0 <= c < |u.consumers| ensures InHand(u, u.consumers[c]) {
      assert InHand(s, s.consumers[c]);
    }
    forall c, d | 0 <= c < |u.consumers| && 0 <= d < |u.consumers| && c != d ensures Apart(u.consumers[c], u.consumers[d]) {
      assert Apart(s.consumers[c], s.consumers[d]);
    }
  }

  /** One read loop moves within its own messages. */
  lemma TriedMove(s: State, u: State, c: nat)
    requires Tried(s) && c < |s.consumers| == |u.consumers|
    requires u.cursor >= s.cursor && u.succeeded >= s.succeeded
    requires forall d :: 0 <= d < |s.consumers| && d != c ==> u.consumers[d] == s.consumers[d]
    requires InHand(u, u.consumers[c])
    requires forall d :: 0 <= d < |s.consumers| && d != c ==> Apart(u.consumers[c], s.consumers[d])
    requires forall id :: Count(u.attempts, id) == Count(s.attempts, id)
                          || (Reading(s.consumers[c]) && id == s.consumers[c].next)
    requires forall id :: id in u.attempts ==> u.attempts[id] <= HANDLE_ATTEMPTS && id < u.cursor
    ensures Tried(u)
  {
    forall d | 0 <= d < |u.consumers| ensures InHand(u, u.consumers[d]) {
      if d != c {
        assert InHand(s, s.consumers[d]);
        assert Apart(s.consumers[c], s.consumers[d]);
      }
    }
    forall d, e | 0 <= d < |u.consumers| && 0 <= e < |u.consumers| && d != e ensures Apart(u.consumers[d], u.consumers[e]) {
      assert Apart(s.consumers[d], s.consumers[e]);
    }
  }

  lemma TriedStep(s: State, t: Step)
    requires Tried(s) && Partitioned(s)
    ensures Tried(Exec(s, t))
  {
    hide Oldest, Partitioned, ClaimRow, Look, Tried;
    var u := Exec(s, t);
    if Enabled(s, t) {
      match t
      case Read(c, reply) => TriedRead(s, c, reply);
      case Handle(c, ok) => TriedHandle(s, c, ok);
      case Ack(c, reply) => TriedAck(s, c, reply);
      case _ => TriedRest(s, t);
    }
  }

  lemma TriedRest(s: State, t: Step)
    requires Tried(s) && !t.Read? && !t.Handle? && !t.Ack?
    ensures Tried(Exec(s, t))
  {
    hide Tried, Exec;
    ReaderKept(s, t);
    TriedFrame(s, Exec(s, t));
  }

  /** Only reads, tries and acks move a read loop; a crash ends it. */
  lemma ReaderKept(s: State, t: Step)
    requires !t.Read? && !t.Handle? && !t.Ack?
    ensures var u := Exec(s, t);
            && u.cursor == s.cursor && u.attempts == s.attempts && u.succeeded == s.succeeded
            && |u.consumers| == |s.consumers|
            && forall c :: 0 <= c < |s.consumers| ==> SameReader(s.consumers[c], u.consumers[c]) || u.consumers[c] == IDLE
  {
    hide Oldest, Idle, Look;
    if t.AckLetter? || t.Claim? {
      hide Exec;
      ReaderKeptServing(s, t);
    }
  }

  lemma ReaderKeptServing(s: State, t: Step)
    requires t.AckLetter? || t.Claim?
    ensures var u := Exec(s, t);
            && u.cursor == s.cursor && u.attempts == s.attempts && u.succeeded == s.succeeded
            && |u.consumers| == |s.consumers|
            && forall c :: 0 <= c < |s.consumers| ==> SameReader(s.consumers[c], u.consumers[c])
  {
    hide Acknowledge, ClaimRow, Idle;
    if Enabled(s, t) { Served(s, t.c, s.consumers[t.c].stale[0].id); }
  }

  lemma TriedRead(s: State, c: nat, reply: Reply)
    requires Tried(s) && Partitioned(s) && Enabled(s, Read(c, reply))
    ensures Tried(Exec(s, Read(c, reply)))
  {
    assert forall id :: id >= s.cursor ==> id !in s.attempts;
    assert forall d :: 0 <= d < |s.consumers| ==> InHand(s, s.consumers[d]);
    TriedMove(s, Exec(s, Read(c, reply)), c);
  }

  lemma TriedHandle(s: State, c: nat, ok: bool)
    requires Tried(s) && Enabled(s, Handle(c, ok))
    ensures Tried(Exec(s, Handle(c, ok)))
  {
    assert InHand(s, s.consumers[c]);
    assert forall d :: 0 <= d < |s.consumers| && d != c ==> Apart(s.consumers[c], s.consumers[d]);
    var u := Exec(s, Handle(c, ok));
    assert forall id :: id != s.consumers[c].next ==> Count(u.attempts, id) == Count(s.attempts, id);
    TriedMove(s, u, c);
  }

  lemma TriedAck(s: State, c: nat, reply: Reply)
    requires Tried(s) && Enabled(s, Ack(c, reply))
    ensures Tried(Exec(s, Ack(c, reply)))
  {
    assert InHand(s, s.consumers[c]);
    assert forall d :: 0 <= d < |s.consumers| && d != c ==> Apart(s.consumers[c], s.consumers[d]);
    TriedMove(s, Exec(s, Ack(c, reply)), c);
  }

  lemma CountedMove(s: State, u: State, c: nat)
    requires Counted(s) && c < |s.consumers| == |u.consumers|
    requires forall d :: 0 <= d < |s.consumers| && d != c ==> u.consumers[d] == s.consumers[d]
    requires u.cursor >= s.cursor && u.lettered >= s.lettered
    requires forall id :: 0 <= id < s.cursor ==> Count(u.deliveries, id) >= Count(s.deliveries, id)
    requires SeenTrue(u, u.consumers[c])
    requires forall id :: id in u.pending ==> u.pending[id].counter == Count(u.deliveries, id) && u.pending[id].at <= u.clock
    requires forall id :: id in u.lettered && id !in s.lettered ==> id < u.cursor && Count(u.deliveries, id) > MAX_DELIVERIES
    ensures Counted(u)
  {
    forall d | 0 <= d < |u.consumers| ensures SeenTrue(u, u.consumers[d]) {
      if d != c { SeenGrows(s, u, s.consumers[d], u.consumers[d]); }
    }
  }

  lemma SeenGrows(s: State, u: State, x: Consumer, y: Consumer)
    requires SeenTrue(s, x) && y.stale == x.stale && y.letterWritten == x.letterWritten
    requires u.cursor >= s.cursor && u.lettered >= s.lettered
    requires forall id :: 0 <= id < s.cursor ==> Count(u.deliveries, id) >= Count(s.deliveries, id)
    ensures SeenTrue(u, y)
  {
  }

  lemma CountedStep(s: State, t: Step)
    requires Counted(s) && Partitioned(s)
    ensures Counted(Exec(s, t))
  {
    if Enabled(s, t) {
      match t
      case Append => CountedPlain(s, t);
      case Tick(_) => CountedPlain(s, t);
      case Claim(c, reply) => CountedClaim(s, c, reply);
      case Read(c, reply) => CountedRead(s, c, reply);
      case Scan(c, ids) => CountedScan(s, c, ids);
      case _ => CountedOther(s, t);
    }
  }

  lemma CountedPlain(s: State, t: Step)
    requires Counted(s) && (t.Append? || t.Tick?)
    ensures Counted(Exec(s, t))
  {
    assert forall c :: 0 <= c < |s.consumers| ==> SeenTrue(s, s.consumers[c]) && SeenTrue(Exec(s, t), s.consumers[c]);
  }

  lemma CountedClaim(s: State, c: nat, reply: Reply)
    requires Counted(s) && Partitioned(s) && Enabled(s, Claim(c, reply))
    ensures Counted(Exec(s, Claim(c, reply)))
  {
    assert SeenTrue(s, s.consumers[c]);
    CountedMove(s, Exec(s, Claim(c, reply)), c);
  }

  lemma CountedRead(s: State, c: nat, reply: Reply)
    requires Counted(s) && Partitioned(s) && Enabled(s, Read(c, reply))
    ensures Counted(Exec(s, Read(c, reply)))
  {
    hide SeenTrue;
    var u := Exec(s, Read(c, reply));
    SeenGrows(s, u, s.consumers[c], u.consumers[c]);
    CountedMove(s, u, c);
  }

  lemma CountedScan(s: State, c: nat, ids: seq<nat>)
    requires Counted(s) && Partitioned(s) && Enabled(s, Scan(c, ids))
    ensures Counted(Exec(s, Scan(c, ids)))
  {
    hide Oldest, Idle;
    OldestPending(s.pending, ids);
    CountedMove(s, Exec(s, Scan(c, ids)), c);
  }

  lemma SeenCarried(s: State, u: State, x: Consumer, y: Consumer)
    requires SeenTrue(s, x)
    requires u.cursor == s.cursor && u.deliveries == s.deliveries
    requires y.stale == x.stale || y.stale == [] || (x.stale != [] && y.stale == x.stale[1..])
    requires y.letterWritten ==> y.stale != [] && y.stale[0].id in u.lettered
    ensures SeenTrue(u, y)
  {
  }

  lemma CountedOther(s: State, t: Step)
    requires Counted(s) && Partitioned(s) && Enabled(s, t)
    requires !t.Append? && !t.Tick? && !t.Claim? && !t.Read? && !t.Scan?
    ensures Counted(Exec(s, t))
  {
    hide Exec;
    if t.Handle? || t.Ack? { CountedReader(s, t); } else { CountedWalker(s, t); }
  }

  lemma CountedReader(s: State, t: Step)
    requires Counted(s) && Enabled(s, t) && (t.Handle? || t.Ack?)
    ensures Counted(Exec(s, t))
  {
    hide SeenTrue;
    var u := Exec(s, t);
    SeenGrows(s, u, s.consumers[t.c], u.consumers[t.c]);
    CountedMove(s, u, t.c);
  }

  lemma CountedWalker(s: State, t: Step)
    requires Counted(s) && Enabled(s, t) && (t.Skip? || t.Letter? || t.AckLetter? || t.Crash?)
    ensures Counted(Exec(s, t))
  {
    hide Idle, SeenTrue;
    var x, u := s.consumers[t.c], Exec(s, t);
    assert SeenTrue(s, x);
    LetterPlaces(s, x);
    SeenCarried(s, u, x, u.consumers[t.c]);
    CountedMove(s, u, t.c);
  }

  lemma LetterPlaces(s: State, x: Consumer)
    requires SeenTrue(s, x)
    ensures x.letterWritten ==> x.stale != [] && x.stale[0].id in s.lettered
    ensures x.stale != [] ==> x.stale[0].id < s.cursor && x.stale[0].counter <= Count(s.deliveries, x.stale[0].id)
  {
  }

  lemma OldestPending(pending: map<nat, Entry>, ids: seq<nat>)
    requires Oldest(pending, ids)
    ensures forall i :: 0 <= i < |ids| ==> ids[i] in pending
    ensures forall i, j :: 0 <= i < j < |ids| ==> ids[i] < ids[j]
  {
  }

  lemma JustifiedStep(s: State, t: Step)
    requires Justified(s) && Tried(s) && Counted(s)
    ensures Justified(Exec(s, t))
  {
    hide Oldest;
  }

  // ----- How often an entry can be claimed -----

  /** The claim loop is still to claim the entry on the strength of a counter within the limit. */
  predicate Holds(x: Consumer, id: nat) {
    exists i :: 0 <= i < |x.stale| && x.stale[i].id == id && x.stale[i].counter <= MAX_DELIVERIES
  }

  function Holders(cs: seq<Consumer>, id: nat): (h: nat)
    ensures h <= |cs|
  {
    if cs == [] then 0 else Holders(cs[..|cs| - 1], id) + if Holds(cs[|cs| - 1], id) then 1 else 0
  }

  lemma {:induction false} HoldersUpdate(cs: seq<Consumer>, c: nat, x: Consumer, id: nat)
    requires c < |cs|
    ensures Holders(cs[c := x], id)
            == Holders(cs, id) + (if Holds(x, id) then 1 else 0) - (if Holds(cs[c], id) then 1 else 0)
  {
    hide Holds;
    var front, n := cs[..|cs| - 1], |cs| - 1;
    if c < n {
      HoldersUpdate(front, c, x, id);
      assert cs[c := x][..n] == front[c := x];
    } else {
      assert cs[c := x][..n] == front;
    }
  }

  /** Past the limit, every further delivery uses up one claim loop's outdated view. */
  ghost predicate Bounded(s: State) {
    forall id :: Count(s.deliveries, id) > MAX_DELIVERIES ==>
      Count(s.deliveries, id) + Holders(s.consumers, id) <= MAX_DELIVERIES + |s.consumers|
  }

  /** A step that delivers nothing and gives no loop a view within the limit of an entry past it. */
  lemma BoundedMove(s: State, u: State, c: nat)
    requires Bounded(s) && c < |s.consumers| == |u.consumers| && u.consumers == s.consumers[c := u.consumers[c]]
    requires forall id :: Count(u.deliveries, id) == Count(s.deliveries, id) || Count(u.deliveries, id) <= MAX_DELIVERIES
    requires forall id :: Holds(u.consumers[c], id) && Count(u.deliveries, id) > MAX_DELIVERIES ==> Holds(s.consumers[c], id)
    ensures Bounded(u)
  {
    hide Holds, Holders;
    forall id | Count(u.deliveries, id) > MAX_DELIVERIES
      ensures Count(u.deliveries, id) + Holders(u.consumers, id) <= MAX_DELIVERIES + |u.consumers|
    {
      HoldersUpdate(s.consumers, c, u.consumers[c], id);
    }
  }

  lemma BoundedClaim(s: State, c: nat, reply: Reply)
    requires Bounded(s) && Counted(s) && Partitioned(s) && Enabled(s, Claim(c, reply))
    ensures Bounded(Exec(s, Claim(c, reply)))
  {
    var x, u := s.consumers[c], Exec(s, Claim(c, reply));
    var target := x.stale[0].id;
    assert SeenTrue(s, x);
    assert Holds(x, target);
    assert !Holds(u.consumers[c], target);
    assert forall id :: Holds(u.consumers[c], id) ==> Holds(x, id);
    hide Holds, Holders, Idle;
    forall id | Count(u.deliveries, id) > MAX_DELIVERIES
      ensures Count(u.deliveries, id) + Holders(u.consumers, id) <= MAX_DELIVERIES + |u.consumers|
    {
      HoldersUpdate(s.consumers, c, u.consumers[c], id);
      assert u.consumers == s.consumers[c := u.consumers[c]];
    }
  }

  lemma BoundedStep(s: State, t: Step)
    requires Bounded(s) && Counted(s) && Partitioned(s)
    ensures Bounded(Exec(s, t))
  {
    if Enabled(s, t) && !t.Append? && !t.Tick? {
      var u := Exec(s, t);
      match t
      case Claim(c, reply) => BoundedClaim(s, c, reply);
      case Scan(c, ids) => BoundedScan(s, c, ids);
      case _ => BoundedOther(s, t);
    }
  }

  lemma BoundedScan(s: State, c: nat, ids: seq<nat>)
    requires Bounded(s) && Counted(s) && Enabled(s, Scan(c, ids))
    ensures Bounded(Exec(s, Scan(c, ids)))
  {
    hide Oldest, Idle, Bounded;
    OldestPending(s.pending, ids);
    BoundedMove(s, Exec(s, Scan(c, ids)), c);
  }

  lemma BoundedOther(s: State, t: Step)
    requires Bounded(s) && Partitioned(s) && Enabled(s, t)
    requires !t.Append? && !t.Tick? && !t.Claim? && !t.Scan?
    ensures Bounded(Exec(s, t))
  {
    hide Exec, Bounded;
    if t.Read? || t.Handle? || t.Ack? { BoundedReader(s, t); } else { BoundedWalker(s, t); }
  }

  lemma BoundedReader(s: State, t: Step)
    requires Bounded(s) && Partitioned(s) && Enabled(s, t) && (t.Read? || t.Handle? || t.Ack?)
    ensures Bounded(Exec(s, t))
  {
    hide Bounded;
    var x, u := s.consumers[t.c], Exec(s, t);
    assert u.consumers[t.c].stale == x.stale;
    assert forall id :: Holds(u.consumers[t.c], id) ==> Holds(x, id);
    assert u.consumers == s.consumers[t.c := u.consumers[t.c]];
    if t.Read? { ReadCounts(s, t.c, u); }
    hide Holds;
    BoundedMove(s, u, t.c);
  }

  lemma BoundedWalker(s: State, t: Step)
    requires Bounded(s) && Enabled(s, t) && (t.Skip? || t.Letter? || t.AckLetter? || t.Crash?)
    ensures Bounded(Exec(s, t))
  {
    hide Oldest, Idle, Bounded;
    var x, u := s.consumers[t.c], Exec(s, t);
    assert forall id :: Holds(u.consumers[t.c], id) ==> Holds(x, id);
    assert u.consumers == s.consumers[t.c := u.consumers[t.c]];
    hide Holds;
    BoundedMove(s, u, t.c);
  }

  lemma ReadCounts(s: State, c: nat, u: State)
    requires exists reply :: u == Exec(s, Read(c, reply))
    ensures forall id :: Count(u.deliveries, id) == Count(s.deliveries, id) || Count(u.deliveries, id) <= MAX_DELIVERIES
  {
  }

  // ----- Every run -----

  ghost predicate Invariant(s: State) {
    Partitioned(s) && Tried(s) && Counted(s) && Justified(s) && Bounded(s)
  }

  lemma InvariantStep(s: State, t: Step)
    requires Invariant(s)
    ensures Invariant(Exec(s, t)) && |Exec(s, t).consumers| == |s.consumers|
  {
    hide Partitioned, Tried, Counted, Justified, Bounded, Exec;
    PartitionedStep(s, t);
    TriedStep(s, t);
    CountedStep(s, t);
    JustifiedStep(s, t);
    BoundedStep(s, t);
  }

  lemma {:induction false} InvariantRun(s: State, ts: seq<Step>)
    requires Invariant(s)
    ensures Invariant(Run(s, ts)) && |Run(s, ts).consumers| == |s.consumers|
  {
    hide Invariant, Exec;
    if ts != [] {
      InvariantRun(s, ts[..|ts| - 1]);
      InvariantStep(Run(s, ts[..|ts| - 1]), ts[|ts| - 1]);
    }
  }

  lemma StartHolds(s: State)
    requires Start(s)
    ensures Invariant(s)
  {
  }

  /** Delivery safety. Under any interleaving of reads, handler failures, lost and failed acks, claims,
      dead-lettering and crashes of any number of consumers, each entry below the group cursor is exactly
      one of pending or acked; it is acked only after handle returned for it, or after a dead-letter write
      was attempted for it with more than MAX_DELIVERIES deliveries; handle is tried on it at most three
      times; and with n consumers it is delivered at most MAX_DELIVERIES + n times. */
  lemma DeliverySafety(s: State, ts: seq<Step>, id: nat)
    requires Start(s)
    ensures var u := Run(s, ts);
            && (id < u.cursor ==> (id in u.pending <==> id !in u.acked))
            && (id >= u.cursor ==> id !in u.pending && id !in u.acked)
            && (id in u.acked ==> id in u.succeeded || (id in u.lettered && Count(u.deliveries, id) > 5))
            && Count(u.attempts, id) <= 3
            && Count(u.deliveries, id) <= 5 + |s.consumers|
            && (id in u.pending ==> u.pending[id].counter == Count(u.deliveries, id))
  {
    StartHolds(s);
    InvariantRun(s, ts);
    if |s.consumers| == 0 { NoConsumers(s, ts); }
  }

  lemma {:induction false} NoConsumers(s: State, ts: seq<Step>)
    requires Start(s) && |s.consumers| == 0
    ensures Run(s, ts).deliveries == map[] && |Run(s, ts).consumers| == 0
  {
    hide Exec;
    if ts != [] {
      NoConsumers(s, ts[..|ts| - 1]);
      NobodySteps(Run(s, ts[..|ts| - 1]), ts[|ts| - 1]);
    }
  }

  lemma NobodySteps(s: State, t: Step)
    requires |s.consumers| == 0
    ensures Exec(s, t).deliveries == s.deliveries && Exec(s, t).consumers == s.consumers
  {
    if t.Append? || t.Tick? { WorldMeaning(s, if t.Tick? then t.ms else 0, 0); }
  }

  /** An entry no read loop has in hand any more. */
  ghost predicate Abandoned(s: State, id: nat) {
    id < s.cursor && forall c :: 0 <= c < |s.consumers| ==> !(s.consumers[c].next <= id < s.consumers[c].end)
  }

  lemma AbandonedStep(s: State, t: Step, id: nat)
    requires Abandoned(s, id) && Partitioned(s)
    ensures var u := Exec(s, t);
            Abandoned(u, id) && Count(u.attempts, id) == Count(s.attempts, id) && (id in u.succeeded <==> id in s.succeeded)
  {
    if t.Read? || t.Handle? || t.Ack? {
      AbandonedMove(s, t, id);
    } else {
      hide Exec;
      ReaderKept(s, t);
    }
  }

  lemma AbandonedMove(s: State, t: Step, id: nat)
    requires Abandoned(s, id) && Partitioned(s) && (t.Read? || t.Handle? || t.Ack?)
    ensures var u := Exec(s, t);
            Abandoned(u, id) && Count(u.attempts, id) == Count(s.attempts, id) && (id in u.succeeded <==> id in s.succeeded)
  {
    hide Acknowledge;
    if t.Ack? && Enabled(s, t) { Served(s, t.c, s.consumers[t.c].next); }
  }

  lemma {:induction false} AbandonedRun(s: State, ts: seq<Step>, id: nat)
    requires Abandoned(s, id) && Invariant(s)
    ensures var u := Run(s, ts);
            Abandoned(u, id) && Count(u.attempts, id) == Count(s.attempts, id) && (id in u.succeeded <==> id in s.succeeded)
  {
    hide Exec, Abandoned;
    if ts != [] {
      AbandonedRun(s, ts[..|ts| - 1], id);
      InvariantRun(s, ts[..|ts| - 1]);
      AbandonedStep(Run(s, ts[..|ts| - 1]), ts[|ts| - 1], id);
    }
  }

  /** A claim never leads to another handling. Once no read loop has an entry in hand (its three
      attempts failed, its reader crashed, or the reply of the read was lost), no run ever tries it
      again; if it was never handled, the only way it leaves the pending list is the dead letter. */
  lemma ClaimedNeverHandled(s: State, ts: seq<Step>, id: nat)
    requires Invariant(s) && Abandoned(s, id) && id !in s.succeeded
    ensures var u := Run(s, ts);
            && Count(u.attempts, id) == Count(s.attempts, id) && id !in u.succeeded
            && (id in u.acked ==> id in u.lettered && Count(u.deliveries, id) > MAX_DELIVERIES)
  {
    AbandonedRun(s, ts, id);
    InvariantRun(s, ts);
  }

  // ----- Draining the pending list -----

  ghost function Weights(s: State): map<nat, int> {
    map id | id in s.pending :: MAX_DELIVERIES + |s.consumers| + 1 - s.pending[id].counter
  }

  /** The deliveries (and the dead letter) still to come for the whole pending list. */
  ghost function Remaining(s: State): int {
    Sum(Weights(s))
  }

  lemma WeightsPositive(s: State, id: nat)
    requires Invariant(s) && id in s.pending && |s.consumers| > 0
    ensures Weights(s)[id] >= 1
  {
    assert s.pending[id].counter == Count(s.deliveries, id);
  }

  lemma RemainingNonNegative(s: State)
    requires Invariant(s) && |s.consumers| > 0
    ensures Remaining(s) >= 0
    ensures Remaining(s) == 0 ==> s.pending == map[]
  {
    forall id | id in s.pending ensures id in Weights(s) && Weights(s)[id] >= 1 { WeightsPositive(s, id); }
    SumNonNegative(Weights(s));
    assert Remaining(s) == 0 ==> forall id :: id !in s.pending;
  }

  lemma AckRemaining(s: State, id: nat)
    requires Invariant(s) && |s.consumers| > 0
    ensures var u := Acknowledge(s, id);
            Remaining(u) <= Remaining(s) && (id in s.pending ==> Remaining(u) < Remaining(s))
  {
    hide Invariant, Sum;
    if id in s.pending {
      WeightsPositive(s, id);
      SumRemove(Weights(s), id);
      assert Weights(Acknowledge(s, id)) == Weights(s) - {id};
    }
  }

  lemma ClaimRemaining(s: State, c: nat, id: nat)
    ensures var u := ClaimRow(s, c, id);
            && Remaining(u) <= Remaining(s)
            && (id in s.pending && Idle(s, id) >= CLAIM_IDLE_MS ==> Remaining(u) < Remaining(s))
            && (id !in s.pending || Idle(s, id) < CLAIM_IDLE_MS ==> u == s)
  {
    var u := ClaimRow(s, c, id);
    if u != s {
      assert Weights(u) == Weights(s)[id := Weights(s)[id] - 1];
      SumUpdate(Weights(s), id, Weights(s)[id] - 1);
    }
  }

  lemma SameRemaining(s: State, u: State)
    requires u.pending == s.pending && |u.consumers| == |s.consumers|
    ensures Remaining(u) == Remaining(s)
  {
    assert Weights(u) == Weights(s);
  }

  /** Once reading stops, no step of any consumer raises what remains, and every step that changes
      the pending list lowers it. */
  lemma RemainingStep(s: State, t: Step)
    requires Invariant(s) && !t.Read?
    ensures var u := Exec(s, t);
            Remaining(u) <= Remaining(s) && (u.pending != s.pending ==> Remaining(u) < Remaining(s))
  {
    var u := Exec(s, t);
    hide Remaining, Invariant, Idle, Oldest, Look;
    if Enabled(s, t) && (t.Ack? || t.AckLetter? || t.Claim?) && t.reply != Error(false) {
      var id := if t.Ack? then s.consumers[t.c].next else s.consumers[t.c].stale[0].id;
      if t.Claim? {
        ClaimRemaining(s, t.c, id);
        SameRemaining(ClaimRow(s, t.c, id), u);
      } else {
        AckRemaining(s, id);
        SameRemaining(Acknowledge(s, id), u);
      }
    } else {
      SameRemaining(s, u);
    }
  }
}
