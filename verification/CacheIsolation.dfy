/** Version isolation: once an eviction has bumped a present counter, no request that reads the version
    afterwards can be given a value whose factory had started before, whatever lands late. */
module CacheIsolation {
  import opened CacheInvariant
  import opened CacheKeys
  import opened CacheProtocol
  import opened Optional
  import opened Redis

  // ------------------------------------------------------------------ the counter

  /** A bump changes the version exactly when the counter was there before. */
  lemma BumpRaises(prefix: string, db: Db, now: int)
    requires CounterOk(prefix, db)
    ensures Version(prefix, Bumped(prefix, db, now), now) > Version(prefix, db, now) <==> CounterPresent(prefix, db, now)
  {
  }

  function BumpedTimes(prefix: string, db: Db, now: int, k: nat): Db {
    if k == 0 then db else Bumped(prefix, BumpedTimes(prefix, db, now, k - 1), now)
  }

  /** After k bumps an unseeded prefix is at version max(1, k): the first bump is lost.
      A present counter at n is at n + k. */
  lemma {:induction false} VersionAfterBumps(prefix: string, db: Db, now: int, k: nat)
    requires CounterOk(prefix, db)
    ensures CounterOk(prefix, BumpedTimes(prefix, db, now, k))
    ensures Version(prefix, BumpedTimes(prefix, db, now, k), now) ==
              if CounterPresent(prefix, db, now) then Version(prefix, db, now) + k
              else if k == 0 then 1 else k
    ensures CounterPresent(prefix, BumpedTimes(prefix, db, now, k), now) <==> CounterPresent(prefix, db, now) || k > 0
  {
    if k == 0 {
    } else {
      VersionAfterBumps(prefix, db, now, k - 1);
    }
  }

  // ------------------------------------------------------------------ isolation

  lemma ExecAppend(prefix: string, s: System, actions: seq<Action>, a: Action)
    requires s.versions != []
    ensures Exec(prefix, s, actions + [a]) == Step(prefix, Exec(prefix, s, actions), a)
  {
    assert (actions + [a])[..|actions|] == actions;
  }

  /** `versions[b]` is the counter's reading after the first b actions. */
  lemma {:induction false} VersionHistory(prefix: string, s: System, actions: seq<Action>, b: nat)
    requires Initial(prefix, s) && b <= |actions|
    ensures var st := Exec(prefix, s, actions[..b]);
            Exec(prefix, s, actions).versions[b] == Version(prefix, st.db, st.now)
  {
    if b == |actions| {
      assert actions[..b] == actions;
      RunKeepsInv(prefix, s, actions);
    } else {
      var prior := actions[..|actions| - 1];
      assert prior[..b] == actions[..b];
      VersionHistory(prefix, s, prior, b);
    }
  }

  /** What a finished or settled request hands to its caller. */
  ghost predicate Returns(t: Task, e: Entry) {
    (t.fg.Settled? || t.fg.Done?) && t.fg.out == Returned(e)
  }

  lemma BumpIsSeen(prefix: string, s: System, actions: seq<Action>, b: nat)
    requires Initial(prefix, s) && b < |actions| && actions[b].Bump?
    requires var st := Exec(prefix, s, actions[..b]); CounterPresent(prefix, st.db, st.now)
    ensures Exec(prefix, s, actions).versions[b] < Exec(prefix, s, actions).versions[b + 1]
  {
    var st := Exec(prefix, s, actions[..b]);
    RunKeepsInv(prefix, s, actions[..b]);
    VersionHistory(prefix, s, actions, b);
    VersionHistory(prefix, s, actions, b + 1);
    assert actions[..b + 1] == actions[..b] + [actions[b]];
    ExecAppend(prefix, s, actions[..b], actions[b]);
    BumpRaises(prefix, st.db, st.now);
  }

  /** A value's maker and every request it is handed to read the same version. */
  lemma SameVersion(prefix: string, s: System, i: nat, e: Entry)
    requires Inv(prefix, s) && i < |s.tasks| && Returns(s.tasks[i], e)
    ensures MadeFor(s, e.value, s.tasks[i].key)
    ensures s.tasks[i].readAt < |s.versions| && s.tasks[e.value.maker].readAt < |s.versions|
    ensures s.tasks[e.value.maker].request.id == s.tasks[i].request.id
    ensures s.tasks[e.value.maker].version == s.tasks[i].version
    ensures s.versions[s.tasks[e.value.maker].readAt] == s.versions[s.tasks[i].readAt]
  {
    assert TaskOk(prefix, s, i) && TaskOk(prefix, s, e.value.maker);
    var t, m := s.tasks[i], s.tasks[e.value.maker];
    VersionedKeyInjective(prefix, t.request.id, t.version, m.request.id, m.version);
  }

  /** In every interleaving: if action b is an eviction's INCR on a present counter, a request that reads
      the version after it returns only values whose factory was started after it. */
  lemma VersionIsolation(prefix: string, s: System, actions: seq<Action>, b: nat, i: nat, e: Entry)
    requires Initial(prefix, s) && b < |actions| && actions[b].Bump?
    requires var st := Exec(prefix, s, actions[..b]); CounterPresent(prefix, st.db, st.now)
    requires var end := Exec(prefix, s, actions);
             i < |end.tasks| && Returns(end.tasks[i], e) && end.tasks[i].readAt > b
    ensures e.value.born > b
  {
    var end := Exec(prefix, s, actions);
    RunKeepsInv(prefix, s, actions);
    BumpIsSeen(prefix, s, actions, b);
    SameVersion(prefix, end, i, e);
    BornAfter(end.versions, end.tasks[e.value.maker].readAt, end.tasks[i].readAt, b, e.value.born);
  }

  lemma BornAfter(versions: seq<nat>, makerReadAt: nat, readAt: nat, b: nat, born: nat)
    requires NonDecreasing(versions)
    requires makerReadAt <= born < |versions| && b < readAt < |versions|
    requires versions[makerReadAt] == versions[readAt] && versions[b] < versions[b + 1]
    ensures born > b
  {
    assert versions[b + 1] <= versions[readAt];
    assert versions[makerReadAt] <= versions[born];
    assert forall x :: 0 <= x <= b ==> versions[x] <= versions[b];
  }

  // ------------------------------------------------------------------ the unseeded counter

  /** The steps of a request that is alone on its instance, up to its answer or its factory. */
  function ReadOnce(i: nat): seq<Action> {
    [Local(i, ReadVersion), Local(i, Enter), Local(i, Read(true)), Local(i, Classify)]
  }

  ghost function Run4(prefix: string, s: System, a: seq<Action>): System
    requires |a| == 4 && s.versions != []
  {
    Step(prefix, Step(prefix, Step(prefix, Step(prefix, s, a[0]), a[1]), a[2]), a[3])
  }

  /** Whatever envelope lives under the key of the current version is what such a request returns. */
  lemma ServesWhatIsStored(prefix: string, s: System, r: Request, stored: Stored, window: int)
    requires Inv(prefix, s) && r.kind.Cached?
    requires var key := VersionedKey(prefix, r.id, Version(prefix, s.db, s.now));
             && (r.instance, key) !in s.inflight
             && Get(s.db, key, s.now) == Some(Envelope(stored, window))
    ensures var i := |s.tasks|;
            var end := Run4(prefix, Step(prefix, s, Arrive(r)), ReadOnce(i));
            && i < |end.tasks| && end.tasks[i].readAt == |s.versions|
            && end.tasks[i].fg.Settled? && end.tasks[i].fg.out.Returned?
            && end.tasks[i].fg.out.entry.hit && end.tasks[i].fg.out.entry.value == stored.v
  {
    var i, v := |s.tasks|, Version(prefix, s.db, s.now);
    var key := VersionedKey(prefix, r.id, v);
    var s1 := Step(prefix, s, Arrive(r));
    var s2 := Step(prefix, s1, Local(i, ReadVersion));
    assert s2.tasks[i] == Task(r, key, v, |s.versions|, Keyed, Off, 0, None);
    var s3 := Step(prefix, s2, Local(i, Enter));
    assert s3.tasks[i].fg == Reading && s3.db == s.db && s3.now == s.now;
    var s4 := Step(prefix, s3, Local(i, Read(true)));
    assert s4.tasks[i].fg == Classifying(Some(Sighting(stored, window, s.now, s.now)));
  }

  /** The first bump of an unseeded prefix evicts nothing: an entry cached before it is returned to a
      request that reads the version after it. */
  lemma UnseededBumpIsLost(prefix: string, s: System, r: Request, stored: Stored, window: int)
    requires Inv(prefix, s) && r.kind.Cached?
    requires !CounterPresent(prefix, s.db, s.now)
    requires var key := VersionedKey(prefix, r.id, 1);
             && (r.instance, key) !in s.inflight
             && Get(s.db, key, s.now) == Some(Envelope(stored, window))
    ensures var i := |s.tasks|;
            var end := Run4(prefix, Step(prefix, Step(prefix, s, Bump), Arrive(r)), ReadOnce(i));
            && i < |end.tasks| && end.tasks[i].readAt > |s.versions| - 1
            && end.tasks[i].fg.Settled? && end.tasks[i].fg.out.Returned?
            && end.tasks[i].fg.out.entry.value == stored.v
            && stored.v.born <= |s.versions| - 1
  {
    var key, s1 := VersionedKey(prefix, r.id, 1), Step(prefix, s, Bump);
    KindsDisjoint(prefix, r.id, 1, prefix, key);
    StepKeepsInv(prefix, s, Bump);
    assert CellOk(s, key, s.db[key]);
    ServesWhatIsStored(prefix, s1, r, stored, window);
  }
}
