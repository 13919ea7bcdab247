/** Concrete runs, from an empty Redis, in which the cache does what its exact conditions allow. */
module CacheRuns {
  import opened CacheInvariant
  import opened CacheIsolation
  import opened CacheKeys
  import opened CacheLock
  import opened CacheProtocol
  import opened Optional
  import opened Redis

  function Start(): System { System(0, map[], [], map[], [1]) }

  lemma StartIsInitial(prefix: string)
    ensures Initial(prefix, Start())
  {
  }

  lemma ExecRun3(prefix: string, s: System, actions: seq<Action>, a: Action, b: Action, c: Action)
    requires s.versions != []
    ensures Exec(prefix, s, actions + [a, b, c]) == Step(prefix, Step(prefix, Step(prefix, Exec(prefix, s, actions), a), b), c)
  {
    ExecAppend(prefix, s, actions, a);
    ExecAppend(prefix, s, actions + [a], b);
    ExecAppend(prefix, s, actions + [a] + [b], c);
    assert actions + [a] + [b] + [c] == actions + [a, b, c];
  }

  lemma ExecRun4(prefix: string, s: System, actions: seq<Action>, more: seq<Action>)
    requires s.versions != [] && |more| == 4
    ensures Exec(prefix, s, actions + more) == Run4(prefix, Exec(prefix, s, actions), more)
  {
    ExecRun3(prefix, s, actions, more[0], more[1], more[2]);
    ExecAppend(prefix, s, actions + [more[0], more[1], more[2]], more[3]);
    assert actions + [more[0], more[1], more[2]] + [more[3]] == actions + more;
  }

  /** A request that is alone on its key misses: it goes on to want the lock, or to run its factory. */
  lemma MissOnce(prefix: string, s: System, r: Request)
    requires s.versions != [] && r.kind.Cached?
    requires var key := VersionedKey(prefix, r.id, Version(prefix, s.db, s.now));
             (r.instance, key) !in s.inflight && Get(s.db, key, s.now).None?
    ensures var i, v := |s.tasks|, Version(prefix, s.db, s.now);
            var key := VersionedKey(prefix, r.id, v);
            var end := Run4(prefix, Step(prefix, s, Arrive(r)), ReadOnce(i));
            && end.db == s.db && end.now == s.now && end.inflight == s.inflight[(r.instance, key) := i]
            && |end.versions| == |s.versions| + 5
            && end.tasks == s.tasks + [if r.options.lock then Task(r, key, v, |s.versions|, WantLock, Off, 0, None)
                                       else Task(r, key, v, |s.versions|, Running(NoLease, true, |s.versions| + 3), Off, 1, None)]
  {
    var i, v := |s.tasks|, Version(prefix, s.db, s.now);
    var key := VersionedKey(prefix, r.id, v);
    var s1 := Step(prefix, s, Arrive(r));
    var s2 := Step(prefix, s1, Local(i, ReadVersion));
    assert s2.tasks == s.tasks + [Task(r, key, v, |s.versions|, Keyed, Off, 0, None)];
    var s3 := Step(prefix, s2, Local(i, Enter));
    assert s3.tasks == s.tasks + [Task(r, key, v, |s.versions|, Reading, Off, 0, None)] && s3.db == s.db;
    var s4 := Step(prefix, s3, Local(i, Read(true)));
    assert s4.tasks == s.tasks + [Task(r, key, v, |s.versions|, Classifying(None), Off, 0, None)];
  }

  function Visit(r: Request, i: nat): seq<Action> { [Arrive(r)] + ReadOnce(i) }

  /** Running a visit after other actions. */
  lemma ExecVisit(prefix: string, s: System, actions: seq<Action>, r: Request, i: nat)
    requires s.versions != []
    ensures Exec(prefix, s, actions + Visit(r, i)) == Run4(prefix, Step(prefix, Exec(prefix, s, actions), Arrive(r)), ReadOnce(i))
  {
    ExecAppend(prefix, s, actions, Arrive(r));
    ExecRun4(prefix, s, actions + [Arrive(r)], ReadOnce(i));
    assert actions + [Arrive(r)] + ReadOnce(i) == actions + Visit(r, i);
  }

  /** The very first request. */
  lemma FirstMisses(prefix: string, r: Request)
    requires r.kind.Cached?
    ensures var end, key := Exec(prefix, Start(), Visit(r, 0)), VersionedKey(prefix, r.id, 1);
            && end.db == map[] && end.now == 0 && end.inflight == map[(r.instance, key) := 0] && |end.versions| == 6
            && end.tasks == [if r.options.lock then Task(r, key, 1, 1, WantLock, Off, 0, None)
                             else Task(r, key, 1, 1, Running(NoLease, true, 4), Off, 1, None)]
  {
    assert [] + Visit(r, 0) == Visit(r, 0);
    ExecVisit(prefix, Start(), [], r, 0);
    MissOnce(prefix, Start(), r);
  }

  // ------------------------------------------------------------------ a lost bump

  /** The factory of a lone request without the lock settles, its value is written, its promise forgotten. */
  lemma WritesThrough(prefix: string, s: System, key: string, payload: Payload)
    requires s.versions != [] && |s.tasks| == 1
    requires var t := s.tasks[0];
             && t.key == key && t.fg.Running? && t.fg.lease.NoLease? && t.fg.writes
             && t.request.kind.Cached? && t.request.options.shouldCache(payload) && t.request.options.Window() > 0
             && s.inflight == map[(t.request.instance, key) := 0]
    ensures var t, w := s.tasks[0], s.tasks[0].request.options.Window();
            var end := Step(prefix, Step(prefix, Step(prefix, s, Local(0, Finish(false, Some(payload)))),
                                         Local(0, Write(false, Delivered))), Local(0, Cleanup));
            && |end.tasks| == 1 && |end.versions| == |s.versions| + 3 && end.inflight == map[] && end.now == s.now
            && end.db == s.db[key := Cell(Envelope(Stored(Value(payload, 0, t.fg.born), s.now, t.request.options.ttl), w),
                                          Some(s.now + w * 1000))]
  {
    var value := Value(payload, 0, s.tasks[0].fg.born);
    var s1 := Step(prefix, s, Local(0, Finish(false, Some(payload))));
    assert s1.tasks == [s.tasks[0].(fg := Writing(NoLease, value))];
    var s2 := Step(prefix, s1, Local(0, Write(false, Delivered)));
    assert s2.tasks == [s.tasks[0].(fg := Settled(Returned(Entry(false, false, value, None))))];
  }

  function FillRun(r: Request, payload: Payload): seq<Action> {
    Visit(r, 0) + [Local(0, Finish(false, Some(payload))), Local(0, Write(false, Delivered)), Local(0, Cleanup)]
  }

  /** A first request fills the cache. */
  lemma Fills(prefix: string, r: Request, payload: Payload)
    requires r.kind.Cached? && !r.options.lock && r.options.shouldCache(payload) && r.options.Window() > 0
    ensures var end, key := Exec(prefix, Start(), FillRun(r, payload)), VersionedKey(prefix, r.id, 1);
            && |end.tasks| == 1 && |end.versions| == 9 && end.inflight == map[] && end.now == 0
            && end.db == map[key := Cell(Envelope(Stored(Value(payload, 0, 4), 0, r.options.ttl), r.options.Window()),
                                         Some(r.options.Window() * 1000))]
  {
    FirstMisses(prefix, r);
    ExecRun3(prefix, Start(), Visit(r, 0), Local(0, Finish(false, Some(payload))), Local(0, Write(false, Delivered)),
             Local(0, Cleanup));
    WritesThrough(prefix, Exec(prefix, Start(), Visit(r, 0)), VersionedKey(prefix, r.id, 1), payload);
  }

  function LostBumpRun(r: Request, payload: Payload): seq<Action> {
    FillRun(r, payload) + [Bump] + Visit(r, 1)
  }

  /** On an unseeded prefix: a request fills the cache, an eviction bumps the version as action 8, and a request
      that reads the version afterwards is given the value made before. */
  lemma LostBumpHappens(prefix: string, r: Request, payload: Payload)
    requires r.kind.Cached? && !r.options.lock && r.options.shouldCache(payload) && r.options.Window() > 0
    ensures LostBumpRun(r, payload)[8] == Bump
    ensures var end := Exec(prefix, Start(), LostBumpRun(r, payload));
            && |end.tasks| == 2 && end.tasks[1].readAt > 8
            && end.tasks[1].fg.Settled? && end.tasks[1].fg.out.Returned? && end.tasks[1].fg.out.entry.value == Value(payload, 0, 4)
  {
    var fill, key := FillRun(r, payload), VersionedKey(prefix, r.id, 1);
    var s := Exec(prefix, Start(), fill);
    StartIsInitial(prefix);
    RunKeepsInv(prefix, Start(), fill);
    Fills(prefix, r, payload);
    KindsDisjoint(prefix, r.id, 1, prefix, key);
    UnseededBumpIsLost(prefix, s, r, Stored(Value(payload, 0, 4), 0, r.options.ttl), r.options.Window());
    ExecAppend(prefix, Start(), fill, Bump);
    ExecVisit(prefix, Start(), fill + [Bump], r, 1);
    assert |Step(prefix, Step(prefix, s, Bump), Arrive(r)).tasks| == 2;
  }

  // ------------------------------------------------------------------ two holders of one lock

  /** Two requests hold one key's lock. */
  predicate TwoHold(s: System) {
    |s.tasks| == 2 && s.tasks[0].key == s.tasks[1].key && Holding(s.tasks[0]) && Holding(s.tasks[1])
  }

  /** The lock's TTL passes, or an eviction deletes the lock. */
  predicate Frees(a: Action, key: string, ttl: int) {
    (a.Tick? && a.ms > ttl * 1000) || a == Delete({LockKey(key)})
  }

  /** Two requests, on different instances, for one entity with the lock: the first takes it, `a` happens, the
      second takes it. */
  function TwoHolderRun(r: Request, q: Request, a: Action): seq<Action> {
    Visit(r, 0) + Visit(q, 1) + [Local(0, Acquire(false, Delivered)), a, Local(1, Acquire(false, Delivered))]
  }

  lemma BothWant(prefix: string, r: Request, q: Request)
    requires r.kind.Cached? && q.kind.Cached? && r.options.lock && q.options.lock
    requires r.id == q.id && r.instance != q.instance
    ensures var end, key := Exec(prefix, Start(), Visit(r, 0) + Visit(q, 1)), VersionedKey(prefix, r.id, 1);
            && end.db == map[] && end.now == 0 && end.versions != []
            && |end.tasks| == 2
            && end.tasks[0] == Task(r, key, 1, 1, WantLock, Off, 0, None)
            && end.tasks[1].key == key && end.tasks[1].request == q && end.tasks[1].fg.WantLock?
  {
    FirstMisses(prefix, r);
    ExecVisit(prefix, Start(), Visit(r, 0), q, 1);
    MissOnce(prefix, Exec(prefix, Start(), Visit(r, 0)), q);
  }

  /** From two requests that want one free lock to two that hold it. */
  lemma Overruns(prefix: string, s: System, ttl: nat, a: Action)
    requires s.versions != [] && |s.tasks| == 2 && s.tasks[0].key == s.tasks[1].key
    requires s.tasks[0].fg.WantLock? && s.tasks[0].bg.Off? && s.tasks[1].fg.WantLock?
    requires s.tasks[0].request.options.lockTtl == ttl && ttl > 0 && s.tasks[1].request.options.lockTtl > 0
    requires Get(s.db, LockKey(s.tasks[0].key), s.now).None?
    requires Frees(a, s.tasks[0].key, ttl) && LockKey(s.tasks[0].key) != VersionKey(prefix)
    ensures var end := Step(prefix, Step(prefix, Step(prefix, s, Local(0, Acquire(false, Delivered))), a),
                            Local(1, Acquire(false, Delivered)));
            TwoHold(end)
  {
    var s1 := Step(prefix, s, Local(0, Acquire(false, Delivered)));
    assert TurnOf(prefix, s, 0, Acquire(false, Delivered)) == AcquireTurn(s, s.tasks[0], false, Delivered);
    assert s1.db[LockKey(s.tasks[0].key)] == Cell(LockMark, Some(s.now + ttl * 1000));
    SecondAcquire(prefix, Step(prefix, s1, a), 0, 1, false);
  }

  /** From an empty Redis, two requests come to hold one lock when it is overrun, and when it is evicted. */
  lemma TwoHoldersHappen(prefix: string, r: Request, q: Request, a: Action)
    requires r.kind.Cached? && q.kind.Cached? && r.options.lock && q.options.lock
    requires r.id == q.id && r.instance != q.instance && r.options.lockTtl > 0 && q.options.lockTtl > 0
    requires Frees(a, VersionedKey(prefix, r.id, 1), r.options.lockTtl)
    ensures TwoHold(Exec(prefix, Start(), TwoHolderRun(r, q, a)))
  {
    var run := Visit(r, 0) + Visit(q, 1);
    BothWant(prefix, r, q);
    KindsDisjoint(prefix, r.id, 1, prefix, VersionedKey(prefix, r.id, 1));
    Overruns(prefix, Exec(prefix, Start(), run), r.options.lockTtl, a);
    ExecRun3(prefix, Start(), run, Local(0, Acquire(false, Delivered)), a, Local(1, Acquire(false, Delivered)));
  }
}
