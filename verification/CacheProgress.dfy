/** A request left to itself, in any state of the system, is answered: with its factory's result on a miss, with
    the stored value on a hit; and it leaves Redis as it should, its lock released and a stale value refreshed. */
module CacheProgress {
  import opened CacheAnswers
  import opened CacheIsolation
  import opened CacheKeys
  import opened CacheProtocol
  import opened CacheRuns
  import opened Optional
  import opened Redis

  lemma {:induction false} ExecConcat(prefix: string, s: System, a: seq<Action>, b: seq<Action>)
    requires s.versions != []
    ensures Exec(prefix, s, a + b) == Exec(prefix, Exec(prefix, s, a), b)
  {
    if b == [] {
      assert a + b == a;
    } else {
      assert a + b == a + b[..|b| - 1] + [b[|b| - 1]];
      ExecAppend(prefix, s, a + b[..|b| - 1], b[|b| - 1]);
      ExecConcat(prefix, s, a, b[..|b| - 1]);
    }
  }

  lemma ExecOne(prefix: string, s: System, a: Action)
    requires s.versions != []
    ensures Exec(prefix, s, [a]) == Step(prefix, s, a)
  {
    ExecAppend(prefix, s, [], a);
    assert [] + [a] == [a];
  }

  function Plain(payload: Payload, i: nat, born: nat): Outcome {
    Returned(Entry(false, false, Value(payload, i, born), None))
  }

  /** Seconds for which a request's entry is kept. */
  function Kept(r: Request): int { r.options.ttl + if r.options.staleTtl > 0 then r.options.staleTtl else 0 }

  // ------------------------------------------------------------------ from the running factory to the answer

  /** The steps of a thread whose factory settles: the write, if it is to write and may; the lock's release, if it
      holds it; for a resolution, the end of its promise. */
  function WorkRun(i: nat, background: bool, payload: Payload, writes: bool, locked: bool, resolution: bool): seq<Action> {
    [Local(i, Finish(background, Some(payload)))]
    + (if writes then [Local(i, Write(background, Delivered))] else [])
    + (if locked then [Local(i, Release(background, Delivered))] else [])
    + (if resolution then [Local(i, Cleanup)] else [])
  }

  /** What the thread's work leaves in Redis. */
  predicate LeavesBehind(before: System, after: System, t: Task, v: Value, writes: bool, locked: bool) {
    && after.now == before.now && |after.tasks| == |before.tasks| && after.versions != []
    && (writes ==> Finds(after, t.key, v))
    && (locked ==> LockKey(t.key) !in after.db)
    && (!writes ==> after.db == if locked then before.db - {LockKey(t.key)} else before.db)
  }

  lemma Finishes(prefix: string, s: System, i: nat, background: bool, payload: Payload)
    requires s.versions != [] && i < |s.tasks| && s.tasks[i].Pc(background).Running?
    ensures var t, pc := s.tasks[i], s.tasks[i].Pc(background);
            var v := Value(payload, i, pc.born);
            var end := Step(prefix, s, Local(i, Finish(background, Some(payload))));
            && end.db == s.db && end.now == s.now && |end.tasks| == |s.tasks| && end.inflight == s.inflight
            && end.tasks[i] == (if pc.writes && t.request.options.shouldCache(payload) then t.At(background, Writing(pc.lease, v))
                                else Finished(t, background, pc.lease, Plain(payload, i, pc.born)))
  {
  }

  lemma Stores(prefix: string, s: System, i: nat, background: bool)
    requires s.versions != [] && i < |s.tasks| && s.tasks[i].Pc(background).Writing? && Kept(s.tasks[i].request) >= 0
    ensures var t, pc := s.tasks[i], s.tasks[i].Pc(background);
            var end := Step(prefix, s, Local(i, Write(background, Delivered)));
            && end.now == s.now && |end.tasks| == |s.tasks|
            && Finds(end, t.key, pc.value) && t.key in end.db
            && end.tasks[i] == Finished(t, background, pc.lease, Returned(Entry(false, false, pc.value, None)))
  {
  }

  lemma Releases(prefix: string, s: System, i: nat, background: bool)
    requires s.versions != [] && i < |s.tasks| && s.tasks[i].Pc(background).Releasing?
    ensures var t, pc := s.tasks[i], s.tasks[i].Pc(background);
            var end := Step(prefix, s, Local(i, Release(background, Delivered)));
            && end.now == s.now && |end.tasks| == |s.tasks| && end.db == s.db - {LockKey(t.key)}
            && end.tasks[i] == Conclude(t, background, pc.out)
            && forall v :: Finds(s, t.key, v) ==> Finds(end, t.key, v)
  {
    assert |LockKey(s.tasks[i].key)| != |s.tasks[i].key|;
  }

  lemma Forgets(prefix: string, s: System, i: nat)
    requires s.versions != [] && i < |s.tasks| && s.tasks[i].fg.Settled?
    ensures var end := Step(prefix, s, Local(i, Cleanup));
            && end.now == s.now && end.db == s.db && |end.tasks| == |s.tasks|
            && end.tasks[i] == s.tasks[i].(fg := Done(s.tasks[i].fg.out))
  {
  }

  /** The factory settles and the value is written, if it is to be. */
  lemma Settles(prefix: string, s: System, i: nat, background: bool, payload: Payload)
    requires s.versions != [] && i < |s.tasks| && s.tasks[i].Pc(background).Running?
    requires s.tasks[i].Pc(background).writes && s.tasks[i].request.options.shouldCache(payload) ==> Kept(s.tasks[i].request) >= 0
    ensures var t, pc := s.tasks[i], s.tasks[i].Pc(background);
            var writes := pc.writes && t.request.options.shouldCache(payload);
            var end := Exec(prefix, s, WorkRun(i, background, payload, writes, false, false));
            && LeavesBehind(s, end, t, Value(payload, i, pc.born), writes, false)
            && end.tasks[i] == Finished(t, background, pc.lease, Plain(payload, i, pc.born))
  {
    var t, pc := s.tasks[i], s.tasks[i].Pc(background);
    var writes := pc.writes && t.request.options.shouldCache(payload);
    var f, w := Local(i, Finish(background, Some(payload))), Local(i, Write(background, Delivered));
    ExecOne(prefix, s, f);
    Finishes(prefix, s, i, background, payload);
    if writes {
      ExecAppend(prefix, s, [f], w);
      Stores(prefix, Step(prefix, s, f), i, background);
      assert [f] + [w] == WorkRun(i, background, payload, true, false, false);
    } else {
      assert [f] == WorkRun(i, background, payload, false, false, false);
    }
  }

  /** The lock, if the thread took it, is given back. */
  lemma Concludes(prefix: string, s: System, i: nat, background: bool, payload: Payload)
    requires s.versions != [] && i < |s.tasks| && s.tasks[i].Pc(background).Running?
    requires s.tasks[i].Pc(background).writes && s.tasks[i].request.options.shouldCache(payload) ==> Kept(s.tasks[i].request) >= 0
    ensures var t, pc := s.tasks[i], s.tasks[i].Pc(background);
            var writes := pc.writes && t.request.options.shouldCache(payload);
            var end := Exec(prefix, s, WorkRun(i, background, payload, writes, pc.lease.Held?, false));
            && LeavesBehind(s, end, t, Value(payload, i, pc.born), writes, pc.lease.Held?)
            && end.tasks[i] == Conclude(if pc.lease.Held? then t.At(background, Releasing(pc.lease.until, Plain(payload, i, pc.born))) else t,
                                        background, Plain(payload, i, pc.born))
  {
    var t, pc := s.tasks[i], s.tasks[i].Pc(background);
    var writes := pc.writes && t.request.options.shouldCache(payload);
    var work, r := WorkRun(i, background, payload, writes, false, false), Local(i, Release(background, Delivered));
    Settles(prefix, s, i, background, payload);
    if pc.lease.Held? {
      ExecAppend(prefix, s, work, r);
      Releases(prefix, Exec(prefix, s, work), i, background);
      assert work + [r] == WorkRun(i, background, payload, writes, true, false);
    } else {
      assert work == WorkRun(i, background, payload, writes, false, false);
    }
  }

  /** A resolution whose factory runs is answered with its result. */
  lemma Answers(prefix: string, s: System, i: nat, payload: Payload)
    requires s.versions != [] && i < |s.tasks| && s.tasks[i].fg.Running? && s.tasks[i].request.kind.Cached?
    requires s.tasks[i].fg.writes && s.tasks[i].request.options.shouldCache(payload) ==> Kept(s.tasks[i].request) >= 0
    ensures var t := s.tasks[i];
            var writes := t.fg.writes && t.request.options.shouldCache(payload);
            var end := Exec(prefix, s, WorkRun(i, false, payload, writes, t.fg.lease.Held?, true));
            && LeavesBehind(s, end, t, Value(payload, i, t.fg.born), writes, t.fg.lease.Held?)
            && end.tasks[i].fg == Done(Plain(payload, i, t.fg.born))
  {
    var t := s.tasks[i];
    var writes := t.fg.writes && t.request.options.shouldCache(payload);
    var work := WorkRun(i, false, payload, writes, t.fg.lease.Held?, false);
    Concludes(prefix, s, i, false, payload);
    ExecAppend(prefix, s, work, Local(i, Cleanup));
    Forgets(prefix, Exec(prefix, s, work), i);
    assert work + [Local(i, Cleanup)] == WorkRun(i, false, payload, writes, t.fg.lease.Held?, true);
  }

  // ------------------------------------------------------------------ a miss

  /** No value under the key the request will build, and nobody on its instance resolving it. */
  ghost predicate Misses(prefix: string, s: System, r: Request) {
    var key := VersionedKey(prefix, r.id, Version(prefix, s.db, s.now));
    s.versions != [] && r.kind.Cached? && (r.instance, key) !in s.inflight && Get(s.db, key, s.now).None?
  }

  function KeyOf(prefix: string, s: System, r: Request): string {
    VersionedKey(prefix, r.id, Version(prefix, s.db, s.now))
  }

  /** Without the lock: a miss is answered with the factory's result, which is stored if `shouldCache` accepts it. */
  lemma MissAnswers(prefix: string, s: System, r: Request, payload: Payload)
    requires Misses(prefix, s, r) && !r.options.lock && (r.options.shouldCache(payload) ==> Kept(r) >= 0)
    ensures var i, stored := |s.tasks|, r.options.shouldCache(payload);
            var end := Exec(prefix, s, Visit(r, i) + WorkRun(i, false, payload, stored, false, true));
            && i < |end.tasks| && end.tasks[i].fg.Done? && end.tasks[i].fg.out.Returned?
            && end.tasks[i].fg.out.entry.value.payload == payload && !end.tasks[i].fg.out.entry.hit
            && (stored ==> Finds(end, KeyOf(prefix, s, r), end.tasks[i].fg.out.entry.value))
            && (!stored ==> end.db == s.db)
  {
    var i, stored := |s.tasks|, r.options.shouldCache(payload);
    VisitsOnce(prefix, s, r);
    Answers(prefix, Exec(prefix, s, Visit(r, i)), i, payload);
    ExecConcat(prefix, s, Visit(r, i), WorkRun(i, false, payload, stored, false, true));
  }

  lemma VisitsOnce(prefix: string, s: System, r: Request)
    requires Misses(prefix, s, r)
    ensures var i, end := |s.tasks|, Exec(prefix, s, Visit(r, |s.tasks|));
            && end.db == s.db && end.now == s.now && end.versions != [] && |end.tasks| == i + 1
            && end.tasks[i].request == r && end.tasks[i].key == KeyOf(prefix, s, r) && end.tasks[i].bg.Off?
            && (if r.options.lock then end.tasks[i].fg.WantLock?
                else end.tasks[i].fg.Running? && end.tasks[i].fg.lease.NoLease? && end.tasks[i].fg.writes)
  {
    assert [] + Visit(r, |s.tasks|) == Visit(r, |s.tasks|);
    ExecVisit(prefix, s, [], r, |s.tasks|);
    MissOnce(prefix, s, r);
  }

  lemma Acquires(prefix: string, s: System, i: nat, background: bool)
    requires s.versions != [] && i < |s.tasks| && s.tasks[i].Pc(background).WantLock?
    requires s.tasks[i].request.options.lockTtl > 0
    ensures var t := s.tasks[i];
            var end := Step(prefix, s, Local(i, Acquire(background, Delivered)));
            && end.now == s.now && end.versions != [] && |end.tasks| == |s.tasks|
            && end.tasks[i].request == t.request && end.tasks[i].key == t.key
            && (if Get(s.db, LockKey(t.key), s.now).None? then
                  && end.tasks[i].Pc(background).Running? && end.tasks[i].Pc(background).lease.Held?
                  && end.tasks[i].Pc(background).writes && end.db.Keys == s.db.Keys + {LockKey(t.key)}
                  && (background ==> end.tasks[i].fg == t.fg)
                else background || (end.tasks[i].fg == Waiting(5) && end.db == s.db))
  {
  }

  /** With the lock, which is free: the same, and the lock is given back. */
  lemma LockedMissAnswers(prefix: string, s: System, r: Request, payload: Payload)
    requires Misses(prefix, s, r) && r.options.lock && r.options.lockTtl > 0 && (r.options.shouldCache(payload) ==> Kept(r) >= 0)
    requires Get(s.db, LockKey(KeyOf(prefix, s, r)), s.now).None?
    ensures var i, stored, key := |s.tasks|, r.options.shouldCache(payload), KeyOf(prefix, s, r);
            var end := Exec(prefix, s, Visit(r, i) + [Local(i, Acquire(false, Delivered))] + WorkRun(i, false, payload, stored, true, true));
            && i < |end.tasks| && end.tasks[i].fg.Done? && end.tasks[i].fg.out.Returned?
            && end.tasks[i].fg.out.entry.value.payload == payload && !end.tasks[i].fg.out.entry.hit
            && (stored ==> Finds(end, key, end.tasks[i].fg.out.entry.value))
            && LockKey(key) !in end.db
  {
    var i, stored := |s.tasks|, r.options.shouldCache(payload);
    var asked := Visit(r, i) + [Local(i, Acquire(false, Delivered))];
    VisitsOnce(prefix, s, r);
    Acquires(prefix, Exec(prefix, s, Visit(r, i)), i, false);
    ExecAppend(prefix, s, Visit(r, i), Local(i, Acquire(false, Delivered)));
    Answers(prefix, Exec(prefix, s, asked), i, payload);
    ExecConcat(prefix, s, asked, WorkRun(i, false, payload, stored, true, true));
  }

  // ------------------------------------------------------------------ waiting for another's value

  function Polls(i: nat, n: nat): seq<Action> {
    if n == 0 then [] else Polls(i, n - 1) + [Local(i, Poll(true))]
  }

  /** `n` polls that find nothing use up `n` tries; the last one starts the factory, which will not write. */
  lemma {:induction false} PollsInVain(prefix: string, s: System, i: nat, tries: nat, n: nat)
    requires s.versions != [] && i < |s.tasks| && s.tasks[i].fg == Waiting(tries) && n <= tries && tries > 0
    requires Get(s.db, s.tasks[i].key, s.now).None?
    ensures var t, end := s.tasks[i], Exec(prefix, s, Polls(i, n));
            && end.db == s.db && end.now == s.now && end.versions != [] && |end.tasks| == |s.tasks|
            && end.tasks[i].request == t.request && end.tasks[i].key == t.key
            && (if n < tries then end.tasks[i].fg == Waiting(tries - n)
                else end.tasks[i].fg.Running? && end.tasks[i].fg.lease.NoLease? && !end.tasks[i].fg.writes)
  {
    if n == 0 {
    } else {
      PollsInVain(prefix, s, i, tries, n - 1);
      ExecAppend(prefix, s, Polls(i, n - 1), Local(i, Poll(true)));
      PollMisses(prefix, Exec(prefix, s, Polls(i, n - 1)), i);
    }
  }

  lemma PollMisses(prefix: string, s: System, i: nat)
    requires s.versions != [] && i < |s.tasks| && s.tasks[i].fg.Waiting? && s.tasks[i].fg.left > 0
    requires Get(s.db, s.tasks[i].key, s.now).None?
    ensures var t, end := s.tasks[i], Step(prefix, s, Local(i, Poll(true)));
            && end.db == s.db && end.now == s.now && |end.tasks| == |s.tasks|
            && end.tasks[i].request == t.request && end.tasks[i].key == t.key
            && (if t.fg.left > 1 then end.tasks[i].fg == Waiting(t.fg.left - 1)
                else end.tasks[i].fg.Running? && end.tasks[i].fg.lease.NoLease? && !end.tasks[i].fg.writes)
  {
  }

  /** With the lock, which somebody else keeps: after five polls that find nothing the request is answered with its
      own factory's result, and changes nothing in Redis. */
  lemma WaitingMissAnswers(prefix: string, s: System, r: Request, payload: Payload)
    requires Misses(prefix, s, r) && r.options.lock && r.options.lockTtl > 0
    requires Get(s.db, LockKey(KeyOf(prefix, s, r)), s.now).Some?
    ensures var i := |s.tasks|;
            var end := Exec(prefix, s, Visit(r, i) + [Local(i, Acquire(false, Delivered))] + Polls(i, 5)
                                       + WorkRun(i, false, payload, false, false, true));
            && i < |end.tasks| && end.tasks[i].fg.Done? && end.tasks[i].fg.out.Returned?
            && end.tasks[i].fg.out.entry.value.payload == payload && !end.tasks[i].fg.out.entry.hit
            && end.db == s.db
  {
    var i := |s.tasks|;
    var asked := Visit(r, i) + [Local(i, Acquire(false, Delivered))];
    VisitsOnce(prefix, s, r);
    Acquires(prefix, Exec(prefix, s, Visit(r, i)), i, false);
    ExecAppend(prefix, s, Visit(r, i), Local(i, Acquire(false, Delivered)));
    PollsInVain(prefix, Exec(prefix, s, asked), i, 5, 5);
    ExecConcat(prefix, s, asked, Polls(i, 5));
    Answers(prefix, Exec(prefix, s, asked + Polls(i, 5)), i, payload);
    ExecConcat(prefix, s, asked + Polls(i, 5), WorkRun(i, false, payload, false, false, true));
  }

  /** A value that appears under the key while the request waits is its answer. */
  lemma WaiterTakesTheValue(prefix: string, s: System, i: nat, v: Value)
    requires s.versions != [] && i < |s.tasks| && s.tasks[i].fg.Waiting? && s.tasks[i].fg.left > 0
    requires Finds(s, s.tasks[i].key, v) && v.payload != Undefined
    ensures var end := Step(prefix, Step(prefix, s, Local(i, Poll(true))), Local(i, Cleanup));
            && end.tasks[i].fg.Done? && end.tasks[i].fg.out.Returned?
            && end.tasks[i].fg.out.entry.value == v && !end.tasks[i].fg.out.entry.hit && end.db == s.db
  {
  }

  // ------------------------------------------------------------------ a bypass

  /** A bypass is answered with its handler's result, which replaces what is stored, if accepted. */
  lemma BypassAnswers(prefix: string, s: System, r: Request, payload: Payload)
    requires s.versions != [] && r.kind.Bypass? && (r.options.shouldCache(payload) ==> Kept(r) >= 0)
    ensures var i, stored := |s.tasks|, r.options.shouldCache(payload);
            var end := Exec(prefix, s, [Arrive(r), Local(i, ReadVersion), Local(i, Enter)] + WorkRun(i, false, payload, stored, false, false));
            && i < |end.tasks| && end.tasks[i].fg.Done? && end.tasks[i].fg.out.Returned?
            && end.tasks[i].fg.out.entry.value.payload == payload
            && (stored ==> Finds(end, KeyOf(prefix, s, r), end.tasks[i].fg.out.entry.value))
            && (!stored ==> end.db == s.db)
  {
    var i, stored, key := |s.tasks|, r.options.shouldCache(payload), KeyOf(prefix, s, r);
    var go := [Arrive(r), Local(i, ReadVersion), Local(i, Enter)];
    assert [] + go == go;
    ExecRun3(prefix, s, [], Arrive(r), Local(i, ReadVersion), Local(i, Enter));
    BypassStarts(prefix, s, r);
    Concludes(prefix, Exec(prefix, s, go), i, false, payload);
    ExecConcat(prefix, s, go, WorkRun(i, false, payload, stored, false, false));
  }

  lemma BypassStarts(prefix: string, s: System, r: Request)
    requires s.versions != [] && r.kind.Bypass?
    ensures var i := |s.tasks|;
            var end := Step(prefix, Step(prefix, Step(prefix, s, Arrive(r)), Local(i, ReadVersion)), Local(i, Enter));
            && end.db == s.db && end.now == s.now && end.versions != [] && |end.tasks| == i + 1
            && end.tasks[i].request == r && end.tasks[i].key == KeyOf(prefix, s, r)
            && end.tasks[i].fg.Running? && end.tasks[i].fg.lease.NoLease? && end.tasks[i].fg.writes
  {
    var i, v := |s.tasks|, Version(prefix, s.db, s.now);
    var s2 := Step(prefix, Step(prefix, s, Arrive(r)), Local(i, ReadVersion));
    assert s2.tasks[i] == Task(r, KeyOf(prefix, s, r), v, |s.versions|, Keyed, Off, 0, None);
  }

  // ------------------------------------------------------------------ a stale hit

  /** A stale value is served at once and, when the refresh's factory has settled with an accepted value, replaced
      by it; the lock is given back. */
  lemma StaleIsRefreshed(prefix: string, s: System, r: Request, stored: Stored, window: int, payload: Payload)
    requires s.versions != [] && r.kind.Cached? && r.options.lockTtl > 0
    requires r.options.shouldCache(payload) && Kept(r) >= 0
    requires (r.instance, KeyOf(prefix, s, r)) !in s.inflight
    requires Get(s.db, KeyOf(prefix, s, r), s.now) == Some(Envelope(stored, window)) && s.now > stored.createdAt + stored.ttl * 1000
    requires Get(s.db, LockKey(KeyOf(prefix, s, r)), s.now).None?
    ensures var i, key := |s.tasks|, KeyOf(prefix, s, r);
            var served := Exec(prefix, s, Visit(r, i));
            var end := Exec(prefix, s, Visit(r, i) + [Local(i, Acquire(true, Delivered))] + WorkRun(i, true, payload, true, true, false));
            && i < |served.tasks| && served.tasks[i].fg.Settled? && served.tasks[i].fg.out.Returned?
            && served.tasks[i].fg.out.entry.value == stored.v
            && served.tasks[i].fg.out.entry.hit && served.tasks[i].fg.out.entry.stale
            && i < |end.tasks| && end.tasks[i].bg.Done?
            && (exists v: Value :: v.payload == payload && Finds(end, key, v))
            && LockKey(key) !in end.db
  {
    var i := |s.tasks|;
    var asked := Visit(r, i) + [Local(i, Acquire(true, Delivered))];
    assert [] + Visit(r, i) == Visit(r, i);
    ExecVisit(prefix, s, [], r, i);
    StaleHit(prefix, s, r, stored, window);
    Acquires(prefix, Exec(prefix, s, Visit(r, i)), i, true);
    ExecAppend(prefix, s, Visit(r, i), Local(i, Acquire(true, Delivered)));
    Concludes(prefix, Exec(prefix, s, asked), i, true, payload);
    ExecConcat(prefix, s, asked, WorkRun(i, true, payload, true, true, false));
  }

  lemma StaleHit(prefix: string, s: System, r: Request, stored: Stored, window: int)
    requires s.versions != [] && r.kind.Cached?
    requires (r.instance, KeyOf(prefix, s, r)) !in s.inflight
    requires Get(s.db, KeyOf(prefix, s, r), s.now) == Some(Envelope(stored, window)) && s.now > stored.createdAt + stored.ttl * 1000
    ensures var i := |s.tasks|;
            var end := Run4(prefix, Step(prefix, s, Arrive(r)), ReadOnce(i));
            && end.db == s.db && end.now == s.now && end.versions != [] && |end.tasks| == i + 1
            && end.tasks[i].request == r && end.tasks[i].key == KeyOf(prefix, s, r)
            && end.tasks[i].bg.WantLock? && end.tasks[i].fg.Settled? && end.tasks[i].fg.out.Returned?
            && end.tasks[i].fg.out.entry.value == stored.v
            && end.tasks[i].fg.out.entry.hit && end.tasks[i].fg.out.entry.stale
  {
    var i, v, key := |s.tasks|, Version(prefix, s.db, s.now), KeyOf(prefix, s, r);
    var s2 := Step(prefix, Step(prefix, s, Arrive(r)), Local(i, ReadVersion));
    assert s2.tasks[i] == Task(r, key, v, |s.versions|, Keyed, Off, 0, None);
    var s3 := Step(prefix, s2, Local(i, Enter));
    assert s3.tasks[i].fg == Reading && s3.db == s.db;
    var s4 := Step(prefix, s3, Local(i, Read(true)));
    assert s4.tasks[i].fg == Classifying(Some(Sighting(stored, window, s.now, s.now)));
  }
}
