/** Restarts of the trade processor. A new process reads events before it has restored its pool-state
    buffer from the backup, so updates are handled on an empty buffer, on both sides of the read. When the
    newest updates survive that, and when they do not. */
module PoolRestarts {
  import opened Base
  import opened PoolStates

  /** What has been read from the backup and is still to be put back. */
  function Snapshot(s: State): map<string, Update> {
    if s.phase.Loaded? then AsMap(s.phase.entries) else map[]
  }

  /** What the buffer will hold once the restore is over, if nothing else happens. */
  function Upcoming(s: State): map<string, Update> {
    if s.phase.Booting? then AsMap(s.buffer) + s.backup else AsMap(s.buffer) + Snapshot(s)
  }

  /** What Kept promises, for a process at any point of its start: the backup is what the buffer will hold,
      at most 500 entries, each the newest of its pool; and every other newest update is shown or evicted. */
  ghost predicate Sound(s: State) {
    && Distinct(s.buffer) && Backed(s)
    && Upcoming(s) == s.backup && |s.backup| <= BUFFER_LIMIT
    && Newest(s) && Accounted(s)
  }

  ghost predicate Backed(s: State) {
    forall p :: p in AsMap(s.buffer) ==> p in s.backup && s.backup[p] == AsMap(s.buffer)[p]
  }

  ghost predicate Newest(s: State) {
    forall p :: p in s.backup ==> Get(s.latest, p) == Some(s.backup[p]) && p !in s.evicted
  }

  ghost predicate Accounted(s: State) {
    forall p :: p in s.latest ==> p in s.backup || p in s.evicted || Shows(s.tables, p, s.latest[p])
  }

  lemma SubsetSize(a: set<string>, b: set<string>)
    requires a <= b
    ensures |a| <= |b| && (|a| == |b| ==> a == b)
  {
    assert b == a + (b - a);
  }

  // Maps put over one another.

  lemma PlusEmpty<K, V>(m: map<K, V>)
    ensures m + map[] == m && map[] + m == m
  {
  }

  lemma PlusPut<K, V>(m: map<K, V>, n: map<K, V>, b: map<K, V>, k: K, v: V)
    requires m + n == b
    ensures m[k := v] + n == b[k := v] <==> (k in n ==> n[k] == v)
    ensures m[k := v] + n[k := v] == b[k := v]
    ensures b[k := v].Keys == b.Keys + {k}
  {
    assert m[k := v] + n[k := v] == b[k := v];
    if k in n && n[k] != v {
      assert (m[k := v] + n)[k] == n[k] && b[k := v][k] == v;
    } else {
      assert m[k := v] + n == b[k := v];
    }
  }

  lemma PlusLess<K, V>(m: map<K, V>, n: map<K, V>, r: set<K>)
    requires (m.Keys * r) * n.Keys == {}
    ensures (m - r) + n == (m + n) - (m.Keys * r)
  {
    forall q | q in m.Keys * r ensures q !in n {
      assert q !in (m.Keys * r) * n.Keys;
    }
    assert ((m - r) + n).Keys == ((m + n) - (m.Keys * r)).Keys;
  }

  lemma PlusWithin<K, V>(m: map<K, V>, b: map<K, V>)
    ensures m + b == b <==> m.Keys <= b.Keys
  {
    if m + b == b { assert (m + b).Keys == m.Keys + b.Keys; }
    if m.Keys <= b.Keys { assert (m + b).Keys == b.Keys; }
  }

  lemma KeptIsSound(s: State)
    ensures Kept(s) <==> s.phase.Running? && Sound(s)
  {
    hide Shows, AsMap, Distinct;
    BufferSize(s);
    PlusEmpty(AsMap(s.buffer));
  }

  lemma BufferSize(s: State)
    ensures Distinct(s.buffer) ==> |AsMap(s.buffer)| == |s.buffer|
  {
    hide Pool;
    MapMembers(s.buffer);
  }

  lemma {:induction false} PutAllMeaning(b: Buffer, entries: Buffer)
    requires Distinct(b)
    ensures Distinct(PutAll(b, entries)) && AsMap(PutAll(b, entries)) == AsMap(b) + AsMap(entries)
  {
    hide Put, Distinct, Pool;
    if entries != [] {
      PutAllMeaning(b, entries[..|entries| - 1]);
      PutMeaning(PutAll(b, entries[..|entries| - 1]), entries[|entries| - 1]);
    }
  }

  // ----- Step by step -----

  /** A flush is safe unless it applies an entry that has been read already and will be put back. */
  predicate FlushAdmits(s: State) {
    AsMap(s.buffer).Keys * s.tables.registry.Keys * Snapshot(s).Keys == {}
  }

  /** An update is safe when no other update of its pool is going to be put back over it, or over the row it
      writes; and when it leaves no more than 500 entries for the buffer, or makes a full buffer drop one
      that will not be put back. */
  predicate ReceiveAdmits(s: State, e: Update) {
    var p := Pool(e);
    if p in s.tables.registry then p in Upcoming(s) ==> Upcoming(s)[p] == e
    else
      && (p in Snapshot(s) ==> Snapshot(s)[p] == e)
      && (|Upcoming(s).Keys + {p}| <= BUFFER_LIMIT
          || (|Put(s.buffer, e)| > BUFFER_LIMIT && Pool(Put(s.buffer, e)[0]) !in Snapshot(s)))
  }

  predicate Admits(s: State, t: Step) {
    match t
    case Timer => FlushAdmits(s)
    case Handle(e) => FlushAdmits(s) && ReceiveAdmits(Flush(s), e)
    case ReadFails => s.phase.Booting? ==> AsMap(s.buffer) == s.backup
    case _ => true
  }

  ghost predicate NoneRegistered(s: State) {
    forall p :: p in AsMap(s.buffer) ==> p !in s.tables.registry
  }

  lemma FlushMaps(s: State)
    requires Distinct(s.buffer)
    ensures var u := Flush(s);
            && Distinct(u.buffer) && AsMap(u.buffer) == AsMap(s.buffer) - s.tables.registry.Keys
            && u.tables.registry == s.tables.registry && NoneRegistered(u)
  {
    FlushBufferMeaning(s.tables.registry, s.buffer);
    FlushRegistry(s.tables, s.buffer);
  }

  lemma FlushShows(s: State)
    requires Backed(s) && Newest(s) && Accounted(s)
    ensures Accounted(Flush(s)) && Newest(Flush(s))
  {
    hide FlushTables, FlushBuffer, Shows;
    var u := Flush(s);
    forall p | p in u.latest ensures p in u.backup || p in u.evicted || Shows(u.tables, p, u.latest[p]) {
      FlushTablesMeaning(s.tables, s.buffer, p);
      ShowsSame(s.tables, u.tables, p, u.latest[p]);
    }
  }

  lemma SoundFlush(s: State)
    requires Sound(s) && FlushAdmits(s)
    ensures Sound(Flush(s)) && NoneRegistered(Flush(s)) && Flush(s).tables.registry == s.tables.registry
  {
    hide Newest, Accounted, Backed, Upcoming, NoneRegistered, Distinct, AsMap, FlushTables, FlushBuffer;
    FlushMaps(s);
    FlushShows(s);
    FlushUpcoming(s);
    BackedFlush(s);
    SubsetSize(Flush(s).backup.Keys, s.backup.Keys);
  }

  lemma BackedFlush(s: State)
    requires Distinct(s.buffer) && Backed(s)
    ensures Backed(Flush(s)) && Flush(s).backup.Keys <= s.backup.Keys
  {
    hide AsMap, Distinct, FlushTables, FlushBuffer;
    FlushMaps(s);
  }

  lemma FlushUpcoming(s: State)
    requires Distinct(s.buffer) && Backed(s) && FlushAdmits(s) && Upcoming(s) == s.backup
    ensures Upcoming(Flush(s)) == Flush(s).backup
  {
    hide AsMap, Distinct, FlushTables, FlushBuffer;
    FlushMaps(s);
    var m, r := AsMap(s.buffer), s.tables.registry.Keys;
    if s.phase.Booting? {
      BackedFlush(s);
      PlusWithin(m - r, s.backup - m.Keys * r);
    } else {
      PlusLess(m, Snapshot(s), r);
    }
  }

  /** An entry that was applied, is gone from the backup, and will be put back. */
  predicate Revenant(s: State, q: string) {
    q in Snapshot(s) && q in s.tables.registry && q !in s.backup
  }

  lemma RevenantBreaks(s: State, q: string, e: Update)
    requires Revenant(s, q)
    ensures !Sound(s) && Revenant(Receive(s, e), q)
  {
    hide Put, InitialPrice;
    assert q in Upcoming(s);
  }

  lemma FlushRevives(s: State) returns (q: string)
    requires Sound(s) && !FlushAdmits(s)
    ensures Revenant(Flush(s), q)
  {
    FlushMaps(s);
    q :| q in AsMap(s.buffer).Keys * s.tables.registry.Keys * Snapshot(s).Keys;
  }

  lemma SoundReceive(s: State, e: Update)
    requires Sound(s) && NoneRegistered(s)
    ensures Sound(Receive(s, e)) <==> ReceiveAdmits(s, e)
  {
    hide Sound, ReceiveAdmits, Receive, Pool, Put;
    if Pool(e) in s.tables.registry {
      SoundApplied(s, e);
    } else if |Put(s.buffer, e)| <= BUFFER_LIMIT {
      SoundBuffered(s, e);
    } else {
      SoundEvicting(s, e);
    }
  }

  /** What receiving an update changes besides the buffer: its own entry in the three maps. */
  lemma AppliedState(s: State, e: Update)
    requires Pool(e) in s.tables.registry
    ensures var u, p := Receive(s, e), Pool(e);
            && u == s.(tables := u.tables, latest := s.latest[p := e], evicted := s.evicted - {p})
            && Shows(u.tables, p, e) && u.tables.registry == s.tables.registry
            && forall q, x :: q != p && Shows(s.tables, q, x) ==> Shows(u.tables, q, x)
  {
    hide Pool, InitialPrice;
  }

  lemma BufferedState(s: State, e: Update)
    requires Distinct(s.buffer) && Pool(e) !in s.tables.registry && |Put(s.buffer, e)| <= BUFFER_LIMIT
    ensures var u, p := Receive(s, e), Pool(e);
            && u == s.(buffer := u.buffer, backup := s.backup[p := e], latest := s.latest[p := e], evicted := s.evicted - {p})
            && Distinct(u.buffer) && AsMap(u.buffer) == AsMap(s.buffer)[p := e]
  {
    hide Pool, Put, AsMap, Distinct;
    PutMeaning(s.buffer, e);
  }

  lemma EvictingState(s: State, e: Update)
    requires Distinct(s.buffer) && Pool(e) !in s.tables.registry && |Put(s.buffer, e)| > BUFFER_LIMIT
    ensures var u, p, o := Receive(s, e), Pool(e), Pool(Put(s.buffer, e)[0]);
            && u == s.(buffer := u.buffer, backup := s.backup[p := e] - {o}, latest := s.latest[p := e],
                       evicted := s.evicted - {p} + {o})
            && Distinct(u.buffer) && AsMap(u.buffer) == AsMap(s.buffer)[p := e] - {o}
  {
    hide Pool, Put, AsMap, Distinct;
    PutMeaning(s.buffer, e);
    DropOldest(Put(s.buffer, e));
  }

  lemma SoundApplied(s: State, e: Update)
    requires Sound(s) && Pool(e) in s.tables.registry
    ensures Sound(Receive(s, e)) <==> ReceiveAdmits(s, e)
  {
    hide Pool, Receive, AsMap, Distinct, Newest, Accounted, Backed;
    AppliedState(s, e);
    AppliedRest(s, e);
    assert Upcoming(Receive(s, e)) == Upcoming(s);
  }

  lemma AppliedRest(s: State, e: Update)
    requires Backed(s) && Newest(s) && Accounted(s) && Pool(e) in s.tables.registry
    ensures var u := Receive(s, e);
            && Backed(u) && Accounted(u)
            && (Newest(u) <==> (Pool(e) in s.backup ==> s.backup[Pool(e)] == e))
  {
    hide Pool, Receive, AsMap, Distinct, Shows;
    AppliedState(s, e);
  }

  lemma PutKeys(b: Buffer, e: Update)
    requires Distinct(b)
    ensures |Put(b, e)| == |AsMap(b).Keys + {Pool(e)}| && |b| == |AsMap(b).Keys|
    ensures |Put(b, e)| > |b| ==> Pool(e) !in AsMap(b)
    ensures |Put(b, e)| > |b| > 0 ==> Put(b, e)[0] == b[0] && Pool(b[0]) in AsMap(b)
  {
    hide Pool, Put;
    PutMeaning(b, e);
    MapMembers(Put(b, e));
    MapMembers(b);
    assert AsMap(Put(b, e)).Keys == AsMap(b).Keys + {Pool(e)};
  }

  lemma PutSize(s: State, e: Update)
    requires Sound(s)
    ensures var b := Put(s.buffer, e);
            && |b| == |AsMap(s.buffer).Keys + {Pool(e)}| <= |s.backup.Keys + {Pool(e)}|
            && (|b| > BUFFER_LIMIT ==> AsMap(s.buffer) == s.backup && Pool(e) !in s.backup && |s.backup| == BUFFER_LIMIT
                                       && Pool(b[0]) in s.backup)
  {
    hide Pool, Put, AsMap, Distinct, Newest, Accounted, Upcoming;
    var p, m := Pool(e), AsMap(s.buffer);
    PutKeys(s.buffer, e);
    SubsetSize(m.Keys + {p}, s.backup.Keys + {p});
    SubsetSize(m.Keys, s.backup.Keys);
    OneMore(m.Keys, p);
    if |Put(s.buffer, e)| > BUFFER_LIMIT { assert m == s.backup; }
  }

  lemma OneMore(a: set<string>, p: string)
    ensures |a + {p}| == if p in a then |a| else |a| + 1
  {
    if p in a { assert a + {p} == a; }
  }

  lemma SoundBuffered(s: State, e: Update)
    requires Sound(s) && Pool(e) !in s.tables.registry
    requires |Put(s.buffer, e)| <= BUFFER_LIMIT
    ensures Sound(Receive(s, e)) <==> ReceiveAdmits(s, e)
  {
    hide Newest, Accounted, Backed, Upcoming, Receive, Pool, Put, AsMap, Distinct;
    BufferedState(s, e);
    BufferedRest(s, e);
    BufferedUpcoming(s, e);
  }

  lemma BufferedRest(s: State, e: Update)
    requires Sound(s) && Pool(e) !in s.tables.registry && |Put(s.buffer, e)| <= BUFFER_LIMIT
    ensures var u := Receive(s, e); Newest(u) && Accounted(u) && Backed(u)
  {
    hide Upcoming, Receive, Pool, Put, AsMap, Distinct, Shows;
    BufferedState(s, e);
  }

  lemma BufferedUpcoming(s: State, e: Update)
    requires Sound(s) && Pool(e) !in s.tables.registry && |Put(s.buffer, e)| <= BUFFER_LIMIT
    ensures var u, p := Receive(s, e), Pool(e);
            && (Upcoming(u) == u.backup <==> (p in Snapshot(s) ==> Snapshot(s)[p] == e))
            && u.backup.Keys == Upcoming(s).Keys + {p}
  {
    hide Receive, Pool, Put, AsMap, Distinct, Newest, Accounted, Backed;
    var m := AsMap(s.buffer);
    BufferedState(s, e);
    if s.phase.Booting? {
      PlusPut(m, s.backup, s.backup, Pool(e), e);
    } else {
      PlusPut(m, Snapshot(s), s.backup, Pool(e), e);
    }
  }

  lemma SoundEvicting(s: State, e: Update)
    requires Sound(s) && Pool(e) !in s.tables.registry
    requires |Put(s.buffer, e)| > BUFFER_LIMIT
    ensures Sound(Receive(s, e)) <==> ReceiveAdmits(s, e)
  {
    hide Newest, Accounted, Backed, Receive, Pool, Put, AsMap, Distinct, Upcoming;
    EvictingState(s, e);
    PutSize(s, e);
    EvictingRest(s, e);
    EvictingUpcoming(s, e);
    OneMore(s.backup.Keys, Pool(e));
  }

  lemma EvictingRest(s: State, e: Update)
    requires Sound(s) && Pool(e) !in s.tables.registry && |Put(s.buffer, e)| > BUFFER_LIMIT
    ensures var u := Receive(s, e); Newest(u) && Accounted(u) && Backed(u) && |u.backup| == BUFFER_LIMIT
  {
    hide Upcoming, Receive, Pool, Put, AsMap, Distinct, Shows;
    EvictingState(s, e);
    PutSize(s, e);
    OneMore(s.backup.Keys, Pool(e));
    var u, p, o := Receive(s, e), Pool(e), Pool(Put(s.buffer, e)[0]);
    assert u.backup.Keys == s.backup.Keys + {p} - {o};
  }

  lemma EvictingUpcoming(s: State, e: Update)
    requires Sound(s) && Pool(e) !in s.tables.registry && |Put(s.buffer, e)| > BUFFER_LIMIT
    ensures var u, o := Receive(s, e), Pool(Put(s.buffer, e)[0]);
            && (Upcoming(u) == u.backup <==> o !in Snapshot(s))
            && Pool(e) !in Snapshot(s) && Upcoming(s).Keys == s.backup.Keys
  {
    hide Receive, Pool, Put, AsMap, Distinct, Newest, Accounted, Backed;
    EvictingState(s, e);
    PutSize(s, e);
    var u, o := Receive(s, e), Pool(Put(s.buffer, e)[0]);
    if s.phase.Booting? {
      PlusWithin(AsMap(u.buffer), u.backup);
    } else {
      SnapshotWithin(AsMap(s.buffer), Snapshot(s), Pool(e), e, o);
    }
  }

  lemma SnapshotWithin<K, V>(m: map<K, V>, n: map<K, V>, k: K, v: V, o: K)
    requires m + n == m && k !in m && o in m
    ensures k !in n
    ensures (m[k := v] - {o}) + n == m[k := v] - {o} <==> o !in n
  {
    assert forall q :: q in n ==> q in m + n && (m + n)[q] == n[q];
    if o in n { assert o in (m[k := v] - {o}) + n; }
  }

  lemma SoundPutBack(s: State)
    requires s.phase.Loaded? && Distinct(s.buffer) && Backed(s)
    ensures Sound(Exec(s, PutBack)) <==> Sound(s)
  {
    hide Pool, AsMap, Distinct, Shows, PutAll, Newest, Accounted;
    PutAllMeaning(s.buffer, s.phase.entries);
    var u := Exec(s, PutBack);
    PlusEmpty(AsMap(u.buffer));
    assert Upcoming(u) == Upcoming(s) == AsMap(u.buffer);
    SameNewest(s, u);
  }

  lemma SameNewest(s: State, u: State)
    requires u.latest == s.latest && u.evicted == s.evicted && u.backup == s.backup && u.tables == s.tables
    ensures (Newest(u) <==> Newest(s)) && (Accounted(u) <==> Accounted(s))
  {
    hide Shows;
  }

  /** One step keeps the promise if and only if it is admitted. */
  lemma SoundStep(s: State, t: Step)
    requires Sound(s)
    ensures Sound(Exec(s, t)) <==> Admits(s, t)
  {
    match t
    case Registered(p, token) => SoundRegister(s, p, token);
    case Handle(e) => SoundHandle(s, e);
    case Timer =>
      if FlushAdmits(s) {
        SoundFlush(s);
      } else {
        var q := FlushRevives(s);
        RevenantBreaks(Flush(s), q, Update("", 0, 0, 0));
      }
    case PutBack => if s.phase.Loaded? { SoundPutBack(s); }
    case _ => SoundRestart(s, t);
  }

  lemma SoundRegister(s: State, p: string, token: string)
    requires Sound(s)
    ensures Sound(Register(s, p, token))
  {
  }

  lemma SoundHandle(s: State, e: Update)
    requires Sound(s)
    ensures Sound(Exec(s, Handle(e))) <==> Admits(s, Handle(e))
  {
    hide Sound, Receive, Flush;
    if FlushAdmits(s) {
      SoundFlush(s);
      SoundReceive(Flush(s), e);
    } else {
      var q := FlushRevives(s);
      RevenantBreaks(Flush(s), q, e);
      RevenantBreaks(Receive(Flush(s), e), q, e);
    }
  }

  lemma SoundRestart(s: State, t: Step)
    requires Sound(s) && (t.Boot? || t.ReadBackup? || t.ReadFails?)
    ensures Sound(Exec(s, t)) <==> Admits(s, t)
  {
    hide Exec, Sound, AsMap;
    match t
    case Boot => SoundBoot(s);
    case ReadBackup(entries) => SoundRead(s, entries);
    case ReadFails => SoundUnread(s);
  }

  lemma SoundBoot(s: State)
    requires Sound(s)
    ensures Sound(Exec(s, Boot))
  {
    hide AsMap, Distinct, Newest, Accounted, PutAll;
    SameNewest(s, Exec(s, Boot));
    EmptyBuffer();
    PlusEmpty(s.backup);
  }

  lemma SoundRead(s: State, entries: Buffer)
    requires Sound(s)
    ensures Sound(Exec(s, ReadBackup(entries)))
  {
    hide AsMap, Distinct, Newest, Accounted, PutAll;
    var u := Exec(s, ReadBackup(entries));
    SameNewest(s, u);
    if u != s { assert Upcoming(u) == Upcoming(s) && Backed(u); }
  }

  lemma SoundUnread(s: State)
    requires Sound(s)
    ensures Sound(Exec(s, ReadFails)) <==> Admits(s, ReadFails)
  {
    hide AsMap, Distinct, Newest, Accounted, PutAll;
    var u := Exec(s, ReadFails);
    SameNewest(s, u);
    PlusEmpty(AsMap(s.buffer));
    if u != s { assert Upcoming(u) == AsMap(s.buffer) && Backed(u); }
  }

  lemma EmptyBuffer()
    ensures AsMap([]) == map[] && Distinct([])
  {
  }

  // ----- Whole runs -----

  ghost predicate AlwaysSound(s: State, ts: seq<Step>) {
    forall k :: 0 <= k <= |ts| ==> Sound(Run(s, ts[..k]))
  }

  ghost predicate AlwaysAdmits(s: State, ts: seq<Step>) {
    forall k :: 0 <= k < |ts| ==> Admits(Run(s, ts[..k]), ts[k])
  }

  lemma AlwaysNext(s: State, ts: seq<Step>)
    requires ts != []
    ensures var front, n := ts[..|ts| - 1], |ts| - 1;
            && (AlwaysSound(s, ts) <==> AlwaysSound(s, front) && Sound(Run(s, ts)))
            && (AlwaysAdmits(s, ts) <==> AlwaysAdmits(s, front) && Admits(Run(s, front), ts[n]))
            && (AlwaysSound(s, front) ==> Sound(Run(s, front)))
  {
    hide Sound, Admits, Run;
    var front, n := ts[..|ts| - 1], |ts| - 1;
    assert forall k :: 0 <= k <= n ==> ts[..k] == front[..k];
    assert front[..n] == front && ts[..n + 1] == ts;
    assert AlwaysSound(s, ts) ==> Sound(Run(s, ts[..n + 1]));
    assert AlwaysSound(s, front) ==> Sound(Run(s, front[..n]));
    assert AlwaysSound(s, ts) ==> forall k :: 0 <= k <= n ==> Sound(Run(s, ts[..k]));
    assert AlwaysAdmits(s, ts) ==> forall k :: 0 <= k < n ==> Admits(Run(s, ts[..k]), ts[k]);
  }

  /** Over any run with any restarts, registrations and updates at any point of a start, the promise holds
      throughout if and only if every step is admitted. */
  lemma {:induction false} RestartsKeepNewest(s: State, ts: seq<Step>)
    requires Sound(s)
    ensures AlwaysSound(s, ts) <==> AlwaysAdmits(s, ts)
  {
    hide Sound, Admits, Exec, AlwaysSound, AlwaysAdmits;
    if ts == [] {
      AlwaysAtStart(s);
    } else {
      RestartsKeepNewest(s, ts[..|ts| - 1]);
      AlwaysNext(s, ts);
      if AlwaysSound(s, ts[..|ts| - 1]) { SoundStep(Run(s, ts[..|ts| - 1]), ts[|ts| - 1]); }
    }
  }

  lemma AlwaysAtStart(s: State)
    requires Sound(s)
    ensures AlwaysSound(s, []) && AlwaysAdmits(s, [])
  {
    hide Sound;
    var none: seq<Step> := [];
    assert none[..0] == none;
  }

  /** Away from a start, every step is admitted. */
  lemma RunningAdmits(s: State, t: Step)
    requires Sound(s) && s.phase.Running?
    ensures Admits(s, t)
  {
    if t.Handle? {
      SoundFlush(s);
      RunningReceive(Flush(s), t.e);
    }
  }

  lemma RunningReceive(s: State, e: Update)
    requires Sound(s) && s.phase.Running? && NoneRegistered(s)
    ensures ReceiveAdmits(s, e)
  {
    hide Pool, Put, Distinct, AsMap, Backed, Newest, Accounted;
    PutSize(s, e);
    PlusEmpty(AsMap(s.buffer));
  }

  /** During a start no update is handled, and the backup can be read. */
  ghost predicate QuietStarts(s: State, ts: seq<Step>) {
    forall k :: 0 <= k < |ts| && !Run(s, ts[..k]).phase.Running? ==> !ts[k].Handle? && !ts[k].ReadFails?
  }

  /** Restarts during whose start nothing is handled lose nothing: what NewestKept promises of one process
      holds of every run. */
  lemma {:induction false} QuietRestarts(s: State, ts: seq<Step>, p: string)
    requires Start(s) && QuietStarts(s, ts)
    ensures var u := Run(s, ts);
            && Sound(u) && (!u.phase.Running? ==> u.buffer == []) && (u.phase.Running? ==> Kept(u))
            && |u.backup| <= BUFFER_LIMIT
            && (p in u.latest ==>
                  if p in u.backup then u.backup[p] == u.latest[p]
                  else p in u.evicted || Shows(u.tables, p, u.latest[p]))
  {
    if ts == [] {
      KeptIsSound(s);
    } else {
      var front, t := ts[..|ts| - 1], ts[|ts| - 1];
      assert forall k :: 0 <= k < |front| ==> ts[..k] == front[..k];
      QuietRestarts(s, front, p);
      QuietStep(Run(s, front), t);
      hide Exec, Kept;
      KeptIsSound(Run(s, ts));
    }
  }

  lemma QuietStep(s: State, t: Step)
    requires Sound(s) && (!s.phase.Running? ==> s.buffer == [] && !t.Handle? && !t.ReadFails?)
    ensures var u := Exec(s, t); Sound(u) && (!u.phase.Running? ==> u.buffer == [])
  {
    hide Sound, Admits;
    SoundStep(s, t);
    if s.phase.Running? { RunningAdmits(s, t); } else { QuietAdmits(s, t); }
    QuietPhase(s, t);
  }

  lemma QuietAdmits(s: State, t: Step)
    requires s.buffer == [] && !t.Handle? && !t.ReadFails?
    ensures Admits(s, t)
  {
    EmptyBuffer();
  }

  lemma QuietPhase(s: State, t: Step)
    requires !s.phase.Running? ==> s.buffer == [] && !t.Handle?
    ensures !Exec(s, t).phase.Running? ==> Exec(s, t).buffer == []
  {
    hide Put, PutAll, Pool;
  }

  // ----- Updates before the backup is read -----

  function HandleAll(s: State, es: seq<Update>): State {
    if es == [] then s else Exec(HandleAll(s, es[..|es| - 1]), Handle(es[|es| - 1]))
  }

  function LastOf(es: seq<Update>, p: string): Option<Update> {
    if es == [] then None
    else if Pool(es[|es| - 1]) == p then Some(es[|es| - 1])
    else LastOf(es[..|es| - 1], p)
  }

  /** The pools of these updates that are not registered. */
  function Waiting(registry: map<string, string>, es: seq<Update>): set<string> {
    set e | e in es && Pool(e) !in registry :: Pool(e)
  }

  function Restored(s: State, entries: Buffer): State {
    Exec(Exec(s, ReadBackup(entries)), PutBack)
  }

  /** The state after some updates of a start on s, before the backup is read. */
  ghost predicate InWindow(s: State, es: seq<Update>, w: State) {
    && w.phase.Booting? && w.tables.registry == s.tables.registry
    && Distinct(w.buffer) && |w.buffer| <= BUFFER_LIMIT && Backed(w) && NoneRegistered(w) && Accounted(w)
    && (forall p :: p in w.backup ==> p !in w.evicted && p in w.latest)
    && (forall p :: p in w.backup && p !in s.tables.registry ==> w.latest[p] == w.backup[p])
    && (forall p :: p in s.tables.registry ==>
          && (p in w.backup <==> p in s.backup) && (p in w.backup ==> w.backup[p] == s.backup[p])
          && (if LastOf(es, p).Some? then Get(w.latest, p) == LastOf(es, p) else Get(w.latest, p) == Get(s.latest, p)))
  }

  lemma {:induction false} FlushNothing(t: Tables, b: Buffer)
    requires forall i :: 0 <= i < |b| ==> Pool(b[i]) !in t.registry
    ensures FlushTables(t, b) == t && FlushBuffer(t.registry, b) == b
  {
    hide Pool;
    if b != [] { FlushNothing(t, b[..|b| - 1]); }
  }

  lemma NothingToFlush(w: State)
    requires NoneRegistered(w)
    ensures Flush(w) == w
  {
    hide Pool, FlushTables, FlushBuffer;
    MapMembers(w.buffer);
    FlushNothing(w.tables, w.buffer);
    assert AsMap(w.buffer).Keys * w.tables.registry.Keys == {};
  }

  lemma WindowStarts(s: State)
    requires Kept(s)
    ensures InWindow(s, [], Exec(s, Boot))
  {
    hide Pool, Shows;
  }

  lemma WindowStep(s: State, es: seq<Update>, w: State, e: Update)
    requires InWindow(s, es, w)
    ensures InWindow(s, es + [e], Receive(w, e))
  {
    assert (es + [e])[..|es|] == es;
    if Pool(e) in w.tables.registry { WindowApplied(s, es, w, e); } else { WindowBuffered(s, es, w, e); }
  }

  lemma WindowApplied(s: State, es: seq<Update>, w: State, e: Update)
    requires InWindow(s, es, w) && Pool(e) in w.tables.registry
    ensures InWindow(s, es + [e], Receive(w, e))
  {
    hide Receive, Pool, AsMap, Distinct, Shows, LastOf;
    LastOther(es, e);
    AppliedState(w, e);
  }

  lemma WindowBuffered(s: State, es: seq<Update>, w: State, e: Update)
    requires InWindow(s, es, w) && Pool(e) !in w.tables.registry
    ensures InWindow(s, es + [e], Receive(w, e))
  {
    hide Receive, Pool, Put, AsMap, Distinct, Shows, LastOf;
    LastOther(es, e);
    if |Put(w.buffer, e)| <= BUFFER_LIMIT { WindowHolds(s, es, w, e); } else { WindowEvicts(s, es, w, e); }
  }

  lemma WindowHolds(s: State, es: seq<Update>, w: State, e: Update)
    requires InWindow(s, es, w) && Pool(e) !in w.tables.registry && |Put(w.buffer, e)| <= BUFFER_LIMIT
    ensures InWindow(s, es + [e], Receive(w, e))
  {
    hide Receive, Pool, Put, AsMap, Distinct, Shows, LastOf, Backed, NoneRegistered, Accounted;
    LastOther(es, e);
    BufferedState(w, e);
    HeldSize(w, e);
    HeldRest(w, e);
  }

  lemma HeldSize(w: State, e: Update)
    requires Distinct(w.buffer) && Pool(e) !in w.tables.registry && |Put(w.buffer, e)| <= BUFFER_LIMIT
    ensures |Receive(w, e).buffer| <= BUFFER_LIMIT
  {
    hide Pool, AsMap, Distinct, Put;
  }

  lemma HeldRest(w: State, e: Update)
    requires Distinct(w.buffer) && Pool(e) !in w.tables.registry && |Put(w.buffer, e)| <= BUFFER_LIMIT
    requires Backed(w) && NoneRegistered(w) && Accounted(w)
    ensures var u := Receive(w, e); Backed(u) && NoneRegistered(u) && Accounted(u)
  {
    hide Receive, Pool, Put, AsMap, Distinct, Shows;
    BufferedState(w, e);
  }

  lemma WindowEvicts(s: State, es: seq<Update>, w: State, e: Update)
    requires InWindow(s, es, w) && Pool(e) !in w.tables.registry && |Put(w.buffer, e)| > BUFFER_LIMIT
    ensures InWindow(s, es + [e], Receive(w, e))
  {
    hide Receive, Pool, Put, AsMap, Distinct, Shows, LastOf, Backed, NoneRegistered, Accounted;
    LastOther(es, e);
    EvictingState(w, e);
    EvictedSize(w, e);
    EvictedRest(w, e);
  }

  lemma EvictedRest(w: State, e: Update)
    requires Distinct(w.buffer) && Pool(e) !in w.tables.registry && |Put(w.buffer, e)| > BUFFER_LIMIT >= |w.buffer|
    requires Backed(w) && NoneRegistered(w) && Accounted(w)
    ensures var u := Receive(w, e);
            Backed(u) && NoneRegistered(u) && Accounted(u) && Pool(Put(w.buffer, e)[0]) !in w.tables.registry
  {
    hide Receive, Pool, Put, AsMap, Distinct, Shows;
    EvictingState(w, e);
    PutKeys(w.buffer, e);
  }

  lemma EvictedSize(w: State, e: Update)
    requires Distinct(w.buffer) && |w.buffer| <= BUFFER_LIMIT
    requires Pool(e) !in w.tables.registry && |Put(w.buffer, e)| > BUFFER_LIMIT
    ensures |Receive(w, e).buffer| <= BUFFER_LIMIT
  {
    hide Pool, AsMap, Distinct, Put;
    PutMeaning(w.buffer, e);
  }

  lemma LastOther(es: seq<Update>, e: Update)
    ensures forall p :: LastOf(es + [e], p) == if Pool(e) == p then Some(e) else LastOf(es, p)
  {
    assert (es + [e])[..|es|] == es;
  }

  lemma {:induction false} WindowRun(s: State, es: seq<Update>)
    requires Kept(s)
    ensures InWindow(s, es, HandleAll(Exec(s, Boot), es))
  {
    hide InWindow, Receive, Flush, Kept;
    if es == [] {
      WindowStarts(s);
    } else {
      var front, e := es[..|es| - 1], es[|es| - 1];
      WindowRun(s, front);
      var w := HandleAll(Exec(s, Boot), front);
      WindowUnregistered(s, front, w);
      NothingToFlush(w);
      WindowStep(s, front, w, e);
      assert es == front + [e];
    }
  }

  lemma WindowUnregistered(s: State, es: seq<Update>, w: State)
    requires InWindow(s, es, w)
    ensures NoneRegistered(w) && w.phase.Booting? && Distinct(w.buffer) && |w.buffer| <= BUFFER_LIMIT && Backed(w)
    ensures w.tables.registry == s.tables.registry
  {
  }

  /** With no more than 500 unregistered pools among the updates, nothing is evicted before the read. */
  lemma {:induction false} WindowKeys(s: State, es: seq<Update>)
    requires Kept(s) && |Waiting(s.tables.registry, es)| <= BUFFER_LIMIT
    ensures var w := HandleAll(Exec(s, Boot), es);
            && AsMap(w.buffer).Keys == Waiting(s.tables.registry, es)
            && w.backup.Keys == s.backup.Keys + Waiting(s.tables.registry, es)
  {
    hide Receive, Flush, Kept, Pool, Waiting, AsMap, Exec, InWindow;
    Booted(s);
    NoneWaiting(s.tables.registry);
    if es != [] {
      var front, e := es[..|es| - 1], es[|es| - 1];
      var w := HandleAll(Exec(s, Boot), front);
      assert es == front + [e];
      FewerWaiting(s.tables.registry, front, e);
      WindowKeys(s, front);
      WindowRun(s, front);
      WindowUnregistered(s, front, w);
      HandledIs(w, e);
      WindowKeysNext(s, front, w, e);
    }
  }

  lemma WindowKeysNext(s: State, es: seq<Update>, w: State, e: Update)
    requires w.tables.registry == s.tables.registry && Distinct(w.buffer)
    requires AsMap(w.buffer).Keys == Waiting(s.tables.registry, es)
    requires w.backup.Keys == s.backup.Keys + Waiting(s.tables.registry, es)
    requires |Waiting(s.tables.registry, es + [e])| <= BUFFER_LIMIT
    ensures var u := Receive(w, e);
            && AsMap(u.buffer).Keys == Waiting(s.tables.registry, es + [e])
            && u.backup.Keys == s.backup.Keys + Waiting(s.tables.registry, es + [e])
  {
    hide Receive, Pool, Waiting, AsMap, Distinct;
    MoreWaiting(s.tables.registry, es, e);
    ReceiveKeys(w, e);
    Regroup(s.backup.Keys, Waiting(s.tables.registry, es), if Pool(e) in s.tables.registry then {} else {Pool(e)});
  }

  lemma Regroup(a: set<string>, b: set<string>, c: set<string>)
    ensures a + b + c == a + (b + c)
  {
  }

  lemma FewerWaiting(registry: map<string, string>, es: seq<Update>, e: Update)
    ensures |Waiting(registry, es)| <= |Waiting(registry, es + [e])|
  {
    hide Waiting, Pool;
    MoreWaiting(registry, es, e);
    SubsetSize(Waiting(registry, es), Waiting(registry, es + [e]));
  }

  lemma HandledIs(w: State, e: Update)
    requires NoneRegistered(w)
    ensures Exec(w, Handle(e)) == Receive(w, e)
  {
    hide Receive;
    NothingToFlush(w);
  }

  lemma NoneWaiting(registry: map<string, string>)
    ensures Waiting(registry, []) == {}
  {
  }

  lemma MoreWaiting(registry: map<string, string>, es: seq<Update>, e: Update)
    ensures Waiting(registry, es + [e]) == Waiting(registry, es) + if Pool(e) in registry then {} else {Pool(e)}
  {
    hide Pool;
    assert forall x :: x in es + [e] <==> x in es || x == e;
  }

  lemma ReceiveKeys(w: State, e: Update)
    requires Distinct(w.buffer)
    requires Pool(e) !in w.tables.registry ==> |AsMap(w.buffer).Keys + {Pool(e)}| <= BUFFER_LIMIT
    ensures var u, more := Receive(w, e), if Pool(e) in w.tables.registry then {} else {Pool(e)};
            AsMap(u.buffer).Keys == AsMap(w.buffer).Keys + more && u.backup.Keys == w.backup.Keys + more
  {
    hide Receive, Pool, Put, AsMap, Distinct;
    PutKeys(w.buffer, e);
    if Pool(e) in w.tables.registry {
      AppliedState(w, e);
    } else {
      BufferedState(w, e);
      PutKey(AsMap(w.buffer), Pool(e), e);
      PutKey(w.backup, Pool(e), e);
    }
  }

  lemma PutKey<K, V>(m: map<K, V>, k: K, v: V)
    ensures m[k := v].Keys == m.Keys + {k}
  {
  }

  /** The exact condition for updates handled between the start and the read of the backup, whatever their
      number: after the restore everything NewestKept promises holds if and only if
      - the last update of each registered pool that was backed up is the one in the backup, and
      - no more than 500 entries are in the backup by then.
      With no more than 500 unregistered pools among the updates, those are the ones backed up before and
      the ones of these pools. */
  lemma BootWindow(s: State, es: seq<Update>, entries: Buffer)
    requires Kept(s)
    requires Distinct(entries) && AsMap(entries) == HandleAll(Exec(s, Boot), es).backup
    ensures var w := HandleAll(Exec(s, Boot), es);
            && (Kept(Restored(w, entries))
                <==> && (forall p :: p in s.backup && p in s.tables.registry ==>
                           LastOf(es, p).None? || LastOf(es, p) == Some(s.backup[p]))
                     && |w.backup| <= BUFFER_LIMIT)
            && (|Waiting(s.tables.registry, es)| <= BUFFER_LIMIT ==>
                  w.backup.Keys == s.backup.Keys + Waiting(s.tables.registry, es))
  {
    hide HandleAll, Exec;
    var w := HandleAll(Exec(s, Boot), es);
    WindowRun(s, es);
    if |Waiting(s.tables.registry, es)| <= BUFFER_LIMIT { WindowKeys(s, es); }
    WindowUnregistered(s, es, w);
    RestoredIs(w, entries);
    KeptIsSound(Restored(w, entries));
    RestoredSound(w, entries);
    WindowNewest(s, es, w);
  }

  lemma RestoredIs(w: State, entries: Buffer)
    requires w.phase.Booting? && Distinct(w.buffer) && Backed(w) && Distinct(entries) && AsMap(entries) == w.backup
    ensures var r := Restored(w, entries);
            && r == w.(buffer := r.buffer, phase := Running)
            && Distinct(r.buffer) && AsMap(r.buffer) == w.backup
  {
    hide Pool, AsMap, PutAll, Distinct;
    PutAllMeaning(w.buffer, entries);
    PlusWithin(AsMap(w.buffer), w.backup);
  }

  lemma RestoredSound(w: State, entries: Buffer)
    requires w.phase.Booting? && Distinct(w.buffer) && Backed(w) && Distinct(entries) && AsMap(entries) == w.backup
    ensures Sound(Restored(w, entries)) <==> |w.backup| <= BUFFER_LIMIT && Newest(w) && Accounted(w)
  {
    hide AsMap, Distinct, Restored, Newest, Accounted;
    RestoredIs(w, entries);
    var r := Restored(w, entries);
    PlusEmpty(AsMap(r.buffer));
    SameNewest(w, r);
  }

  lemma WindowNewest(s: State, es: seq<Update>, w: State)
    requires Kept(s) && InWindow(s, es, w)
    ensures Accounted(w)
    ensures Newest(w) <==> forall p :: p in s.backup && p in s.tables.registry ==>
                             LastOf(es, p).None? || LastOf(es, p) == Some(s.backup[p])
  {
    hide LastOf, Pool, AsMap, Distinct, Shows;
  }

  // ----- What goes wrong -----

  /** One update before the read: the exact condition from what is registered and backed up. */
  lemma OneBeforeRead(s: State, e: Update, entries: Buffer)
    requires Kept(s)
    requires Distinct(entries) && AsMap(entries) == Exec(Exec(s, Boot), Handle(e)).backup
    ensures Kept(Restored(Exec(Exec(s, Boot), Handle(e)), entries))
            <==> if Pool(e) in s.tables.registry then Pool(e) in s.backup ==> s.backup[Pool(e)] == e
                 else |s.backup.Keys + {Pool(e)}| <= BUFFER_LIMIT
  {
    hide Exec, Restored, Kept, Pool;
    assert [e][..0] == [];
    assert HandleAll(Exec(s, Boot), [e]) == Exec(HandleAll(Exec(s, Boot), []), Handle(e));
    BootWindow(s, [e], entries);
    assert Waiting(s.tables.registry, [e]) == if Pool(e) in s.tables.registry then {} else {Pool(e)};
    assert forall p :: LastOf([e], p) == if Pool(e) == p then Some(e) else None;
    KeptSize(s);
  }

  lemma KeptSize(s: State)
    requires Kept(s)
    ensures |s.backup.Keys| <= BUFFER_LIMIT && s.backup.Keys + {} == s.backup.Keys
  {
    MapMembers(s.buffer);
  }

  /** The older update wins: the pool was registered while the process was down, and a newer update of it
      is handled before the restore. Then the restore puts the older one back, and the next flush writes
      it over the newer one. */
  lemma OlderComesBack(s: State, newer: Update, entries: Buffer)
    requires Kept(s) && Pool(newer) in s.tables.registry && Pool(newer) in s.backup && s.backup[Pool(newer)] != newer
    requires Distinct(entries) && AsMap(entries) == Exec(Exec(s, Boot), Handle(newer)).backup
    ensures var p, r := Pool(newer), Restored(Exec(Exec(s, Boot), Handle(newer)), entries);
            && !Kept(r) && r.latest[p] == newer && p !in r.evicted
            && Shows(Flush(r).tables, p, s.backup[p])
  {
    hide Pool, Kept, Restored, FlushTables, FlushBuffer, Exec, Receive, AsMap, Distinct;
    var w, p := Exec(Exec(s, Boot), Handle(newer)), Pool(newer);
    OneBeforeRead(s, newer, entries);
    BootedHandle(s, newer);
    Booted(s);
    AppliedState(Exec(s, Boot), newer);
    RestoredIs(w, entries);
    FlushTablesMeaning(Restored(w, entries).tables, Restored(w, entries).buffer, p);
  }

  lemma Booted(s: State)
    ensures Exec(s, Boot) == s.(buffer := [], phase := Booting) && AsMap([]) == map[] && Distinct([])
  {
  }

  lemma BootedHandle(s: State, e: Update)
    ensures Exec(Exec(s, Boot), Handle(e)) == Receive(Exec(s, Boot), e)
  {
    hide Pool, Receive;
    NothingToFlush(Exec(s, Boot));
  }

  /** The buffer overflows: with 500 entries backed up, an update of one more unregistered pool before the
      restore leaves 501 in the buffer; and each further new pool evicts only one, so 501 stay. */
  lemma RestoredOverfull(s: State, e: Update, entries: Buffer, next: Update)
    requires Kept(s) && |s.backup| == BUFFER_LIMIT && NoneRegistered(s)
    requires Pool(e) !in s.tables.registry && Pool(e) !in s.backup
    requires Distinct(entries) && AsMap(entries) == Exec(Exec(s, Boot), Handle(e)).backup
    requires Pool(next) !in s.tables.registry && Pool(next) !in s.backup && Pool(next) != Pool(e)
    ensures var r := Restored(Exec(Exec(s, Boot), Handle(e)), entries);
            |r.buffer| == BUFFER_LIMIT + 1 && |Exec(r, Handle(next)).buffer| == BUFFER_LIMIT + 1
  {
    hide Pool, Restored, Exec, Receive, AsMap, Distinct;
    var w := Exec(Exec(s, Boot), Handle(e));
    var r := Restored(w, entries);
    BootedHandle(s, e);
    OneBuffered(s, e);
    RestoredIs(w, entries);
    BufferSize(r);
    OneMore(s.backup.Keys, Pool(e));
    assert r.buffer == r.buffer && w.backup.Keys == s.backup.Keys + {Pool(e)};
    assert NoneRegistered(r);
    StaysOverfull(r, next);
  }

  lemma OneBuffered(s: State, e: Update)
    requires Pool(e) !in s.tables.registry
    ensures var w := Receive(Exec(s, Boot), e);
            && w.phase.Booting? && w.buffer == [e] && w.backup == s.backup[Pool(e) := e]
            && w.tables == s.tables && Distinct(w.buffer) && AsMap(w.buffer) == map[Pool(e) := e]
  {
    hide Pool, Put, AsMap, Distinct, Applied;
    Booted(s);
    PutFirst(e);
  }

  lemma PutFirst(e: Update)
    ensures Put([], e) == [e] && Distinct([e]) && AsMap([e]) == map[Pool(e) := e]
  {
    hide Pool;
    assert [e][..0] == [];
  }

  lemma StaysOverfull(r: State, next: Update)
    requires NoneRegistered(r) && Distinct(r.buffer) && |r.buffer| > BUFFER_LIMIT
    requires Pool(next) !in r.tables.registry && Pool(next) !in AsMap(r.buffer)
    ensures |Exec(r, Handle(next)).buffer| == |r.buffer|
  {
    hide Pool, Flush;
    NothingToFlush(r);
  }

  /** One update between the read and the putting back: what is put back goes over it, registered or not, so
      the promise survives if and only if nothing else of its pool was read, and the entries still fit. */
  lemma OneAfterRead(s: State, e: Update, entries: Buffer)
    requires Kept(s) && Distinct(entries) && AsMap(entries) == s.backup
    ensures var read := Exec(Exec(s, Boot), ReadBackup(entries));
            Kept(Exec(Exec(read, Handle(e)), PutBack))
            <==> && (Pool(e) in s.backup ==> s.backup[Pool(e)] == e)
                 && (Pool(e) in s.tables.registry || |s.backup.Keys + {Pool(e)}| <= BUFFER_LIMIT)
  {
    hide Exec, Sound, Kept, Admits, Pool;
    var read := Exec(Exec(s, Boot), ReadBackup(entries));
    var h := Exec(read, Handle(e));
    SoundAtRead(s, entries);
    ReadState(s, entries);
    SoundStep(read, Handle(e));
    AdmitsAfterRead(s, entries, e);
    HandledIs(read, e);
    HandledBeforePutBack(read, e);
    SoundPutBack(h);
    KeptIsSound(Exec(h, PutBack));
    PutBackRuns(h);
  }

  lemma PutBackRuns(h: State)
    requires h.phase.Loaded?
    ensures Exec(h, PutBack).phase.Running?
  {
  }

  lemma SoundAtRead(s: State, entries: Buffer)
    requires Kept(s)
    ensures Sound(Exec(Exec(s, Boot), ReadBackup(entries)))
  {
    hide Exec, Sound, Kept;
    KeptIsSound(s);
    SoundStep(s, Boot);
    SoundStep(Exec(s, Boot), ReadBackup(entries));
  }

  lemma AdmitsAfterRead(s: State, entries: Buffer, e: Update)
    requires Distinct(entries) && AsMap(entries) == s.backup
    ensures Admits(Exec(Exec(s, Boot), ReadBackup(entries)), Handle(e))
            <==> && (Pool(e) in s.backup ==> s.backup[Pool(e)] == e)
                 && (Pool(e) in s.tables.registry || |s.backup.Keys + {Pool(e)}| <= BUFFER_LIMIT)
  {
    hide Exec, Pool, Put, Flush, AsMap, Distinct;
    var read := Exec(Exec(s, Boot), ReadBackup(entries));
    ReadState(s, entries);
    NothingToFlush(read);
    EmptyBuffer();
    PutFirst(e);
  }

  lemma ReadState(s: State, entries: Buffer)
    requires Distinct(entries) && AsMap(entries) == s.backup
    ensures var read := Exec(Exec(s, Boot), ReadBackup(entries));
            && read == s.(buffer := [], phase := Loaded(entries))
            && NoneRegistered(read) && Snapshot(read) == s.backup && Upcoming(read) == s.backup
  {
  }

  lemma HandledBeforePutBack(read: State, e: Update)
    requires read.buffer == [] && read.phase.Loaded?
    ensures var h := Receive(read, e);
            h.phase == read.phase && Distinct(h.buffer) && Backed(h)
    ensures |Put(read.buffer, e)| == 1
  {
    hide Pool, Applied;
    assert [e][..0] == [];
  }
}
