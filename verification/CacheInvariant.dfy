/** What every reachable state of the cache protocol satisfies: where each stored and each returned
    value came from, and how old it can be. */
module CacheInvariant {
  import opened CacheKeys
  import opened CacheProtocol
  import opened Optional
  import opened Redis

  // ------------------------------------------------------------------ the invariant

  ghost predicate MadeFor(s: System, v: Value, key: string) {
    && v.maker < |s.tasks|
    && s.tasks[v.maker].Keyed()
    && s.tasks[v.maker].key == key
    && s.tasks[v.maker].readAt <= v.born < |s.versions|
  }

  /** A storable value: its own request's `shouldCache` accepts it. */
  ghost predicate Storable(s: System, v: Value, key: string) {
    MadeFor(s, v, key) && s.tasks[v.maker].request.options.shouldCache(v.payload)
  }

  ghost predicate StoredOk(s: System, stored: Stored, window: int, key: string) {
    && Storable(s, stored.v, key)
    && stored.ttl == s.tasks[stored.v.maker].request.options.ttl
    && window == s.tasks[stored.v.maker].request.options.Window()
  }

  ghost predicate SightingOk(s: System, g: Sighting, key: string) {
    && StoredOk(s, g.stored, g.window, key)
    && g.stored.createdAt <= g.readMs <= g.judgedMs
    && (g.window != 0 ==> g.readMs - g.stored.createdAt <= g.window * 1000)
  }

  ghost predicate EntryOk(s: System, e: Entry, key: string) {
    && MadeFor(s, e.value, key)
    && (e.stale ==> e.hit)
    && (e.hit ==> e.seen.Some?)
    && (e.seen.Some? ==> SightingOk(s, e.seen.value, key) && e.value == e.seen.value.stored.v)
    && (e.hit ==> e.stale == !IsFresh(e.seen.value.stored, e.seen.value.judgedMs))
  }

  ghost predicate OutcomeOk(s: System, out: Outcome, key: string) {
    out.Returned? ==> EntryOk(s, out.entry, key)
  }

  ghost predicate PcOk(s: System, i: nat, pc: Pc)
    requires i < |s.tasks|
  {
    var t := s.tasks[i];
    match pc
    case Classifying(found) => found.Some? ==> SightingOk(s, found.value, t.key) && found.value.judgedMs <= s.now
    case Running(_, _, born) => t.readAt <= born < |s.versions|
    case Writing(_, v) => v.maker == i && Storable(s, v, t.key)
    case Releasing(_, out) => OutcomeOk(s, out, t.key)
    case Settled(out) => OutcomeOk(s, out, t.key)
    case Done(out) => OutcomeOk(s, out, t.key)
    case _ => true
  }

  ghost predicate TaskOk(prefix: string, s: System, i: nat)
    requires i < |s.tasks|
  {
    var t := s.tasks[i];
    && (!t.Keyed() ==> t.bg.Off? && t.leader.None?)
    && (t.Keyed() ==> && t.readAt < |s.versions|
                      && s.versions[t.readAt] == t.version
                      && t.key == VersionedKey(prefix, t.request.id, t.version))
    && PcOk(s, i, t.fg) && PcOk(s, i, t.bg)
    && (t.leader.Some? ==> && t.leader.value < |s.tasks|
                           && s.tasks[t.leader.value].Keyed()
                           && s.tasks[t.leader.value].key == t.key)
  }

  ghost predicate CellOk(s: System, key: string, cell: Cell<Content>) {
    cell.content.Envelope? ==>
      var Envelope(stored, window) := cell.content;
      && StoredOk(s, stored, window, key)
      && stored.createdAt <= s.now
      && window >= 0
      && cell.expires == if window == 0 then None else Some(stored.createdAt + window * 1000)
  }

  ghost predicate InflightOk(s: System) {
    forall slot :: slot in s.inflight ==>
      && s.inflight[slot] < |s.tasks|
      && s.tasks[s.inflight[slot]].Keyed()
      && s.tasks[s.inflight[slot]].key == slot.1
  }

  ghost predicate NonDecreasing(versions: seq<nat>) {
    forall i, j :: 0 <= i < j < |versions| ==> versions[i] <= versions[j]
  }

  ghost predicate Inv(prefix: string, s: System) {
    && s.versions != []
    && s.versions[|s.versions| - 1] == Version(prefix, s.db, s.now)
    && NonDecreasing(s.versions)
    && CounterOk(prefix, s.db)
    && (forall i :: 0 <= i < |s.tasks| ==> TaskOk(prefix, s, i))
    && (forall key :: key in s.db ==> CellOk(s, key, s.db[key]))
    && InflightOk(s)
  }

  // ------------------------------------------------------------------ what steps never take back

  ghost predicate TaskKept(t: Task, t': Task) {
    && t'.request == t.request
    && (t.Keyed() ==> t'.Keyed() && t'.key == t.key && t'.version == t.version && t'.readAt == t.readAt)
  }

  ghost predicate Grows(s: System, s': System) {
    && |s.tasks| <= |s'.tasks|
    && s.versions <= s'.versions
    && s.now <= s'.now
    && forall i :: 0 <= i < |s.tasks| ==> TaskKept(s.tasks[i], s'.tasks[i])
  }

  lemma MadeForKept(s: System, s': System, v: Value, key: string)
    requires Grows(s, s')
    ensures MadeFor(s, v, key) ==> MadeFor(s', v, key)
    ensures Storable(s, v, key) ==> Storable(s', v, key)
  {
    if MadeFor(s, v, key) {
      assert TaskKept(s.tasks[v.maker], s'.tasks[v.maker]);
    }
  }

  lemma StoredKept(s: System, s': System, stored: Stored, window: int, key: string)
    requires Grows(s, s') && StoredOk(s, stored, window, key)
    ensures StoredOk(s', stored, window, key)
  {
    MadeForKept(s, s', stored.v, key);
    assert TaskKept(s.tasks[stored.v.maker], s'.tasks[stored.v.maker]);
  }

  lemma SightingKept(s: System, s': System, g: Sighting, key: string)
    requires Grows(s, s') && SightingOk(s, g, key)
    ensures SightingOk(s', g, key)
  {
    StoredKept(s, s', g.stored, g.window, key);
  }

  lemma OutcomeKept(s: System, s': System, out: Outcome, key: string)
    requires Grows(s, s') && OutcomeOk(s, out, key)
    ensures OutcomeOk(s', out, key)
  {
    if out.Returned? {
      MadeForKept(s, s', out.entry.value, key);
      if out.entry.seen.Some? { SightingKept(s, s', out.entry.seen.value, key); }
    }
  }

  lemma PcKept(s: System, s': System, i: nat, pc: Pc)
    requires Grows(s, s') && i < |s.tasks|
    requires s.tasks[i].Keyed() && PcOk(s, i, pc)
    ensures PcOk(s', i, pc)
  {
    assert TaskKept(s.tasks[i], s'.tasks[i]);
    var key := s.tasks[i].key;
    match pc
    case Classifying(found) => if found.Some? { SightingKept(s, s', found.value, key); }
    case Writing(_, v) => MadeForKept(s, s', v, key);
    case Releasing(_, out) => OutcomeKept(s, s', out, key);
    case Settled(out) => OutcomeKept(s, s', out, key);
    case Done(out) => OutcomeKept(s, s', out, key);
    case _ =>
  }

  /** A task that a step leaves alone stays in order. */
  lemma TaskOkKept(prefix: string, s: System, s': System, i: nat)
    requires Grows(s, s') && i < |s.tasks| && TaskOk(prefix, s, i)
    requires s'.tasks[i] == s.tasks[i]
    ensures TaskOk(prefix, s', i)
  {
    var t := s.tasks[i];
    if t.Keyed() {
      PcKept(s, s', i, t.fg);
      PcKept(s, s', i, t.bg);
    }
    if t.leader.Some? {
      assert TaskKept(s.tasks[t.leader.value], s'.tasks[t.leader.value]);
    }
  }

  lemma CellKept(s: System, s': System, key: string, cell: Cell<Content>)
    requires Grows(s, s') && CellOk(s, key, cell)
    ensures CellOk(s', key, cell)
  {
    if cell.content.Envelope? {
      StoredKept(s, s', cell.content.stored, cell.content.window, key);
    }
  }

  // ------------------------------------------------------------------ steps of one request

  ghost predicate SlotOk(s: System, slot: (nat, string), i: nat) {
    i < |s.tasks| && s.tasks[i].Keyed() && s.tasks[i].key == slot.1
  }

  ghost predicate SameCounter(prefix: string, db: Db, db': Db) {
    && (VersionKey(prefix) in db <==> VersionKey(prefix) in db')
    && (VersionKey(prefix) in db ==> db[VersionKey(prefix)] == db'[VersionKey(prefix)])
  }

  ghost predicate DbFine(prefix: string, s: System, db: Db) {
    && SameCounter(prefix, s.db, db)
    && forall key :: key in db ==> CellOk(s, key, db[key])
  }

  /** What the step of a request that has its key leaves behind, judged in the state before it. */
  ghost predicate TurnFine(prefix: string, s: System, i: nat, turn: Turn)
    requires i < |s.tasks|
  {
    var t, t' := s.tasks[i], turn.task;
    && t'.Keyed() && TaskKept(t, t')
    && PcOk(s, i, t'.fg) && PcOk(s, i, t'.bg)
    && (t'.leader.Some? ==> SlotOk(s, (t.request.instance, t.key), t'.leader.value))
    && DbFine(prefix, s, turn.db)
    && forall slot :: slot in turn.inflight ==> SlotOk(s, slot, turn.inflight[slot])
  }

  lemma StayFine(prefix: string, s: System, i: nat, t': Task)
    requires Inv(prefix, s) && i < |s.tasks| && s.tasks[i].Keyed()
    requires t'.Keyed() && TaskKept(s.tasks[i], t') && PcOk(s, i, t'.fg) && PcOk(s, i, t'.bg)
    requires t'.leader.Some? ==> SlotOk(s, (s.tasks[i].request.instance, s.tasks[i].key), t'.leader.value)
    ensures TurnFine(prefix, s, i, Stay(s, t'))
  {
  }

  lemma LockWriteFine(prefix: string, s: System, i: nat, db: Db)
    requires Inv(prefix, s) && i < |s.tasks| && s.tasks[i].Keyed()
    requires db == s.db - {LockKey(s.tasks[i].key)} || (exists e :: db == s.db[LockKey(s.tasks[i].key) := Cell(LockMark, e)])
    ensures DbFine(prefix, s, db)
  {
    KindsDisjoint(prefix, s.tasks[i].request.id, s.tasks[i].version, prefix, s.tasks[i].key);
  }

  lemma EnterFine(prefix: string, s: System, i: nat)
    requires Inv(prefix, s) && i < |s.tasks| && s.tasks[i].fg.Keyed?
    ensures TurnFine(prefix, s, i, EnterTurn(s, i, s.tasks[i]))
  {
    assert TaskOk(prefix, s, i);
  }

  lemma ClassifyFine(prefix: string, s: System, i: nat)
    requires Inv(prefix, s) && i < |s.tasks| && s.tasks[i].fg.Classifying?
    ensures TurnFine(prefix, s, i, ClassifyTurn(s, s.tasks[i], s.tasks[i].fg.found))
  {
    assert TaskOk(prefix, s, i);
    var t := s.tasks[i];
    match t.fg.found
    case Some(g) =>
      var entry := Entry(true, !IsFresh(g.stored, s.now), g.stored.v, Some(g.(judgedMs := s.now)));
      assert EntryOk(s, entry, t.key);
      StayFine(prefix, s, i, t.(fg := Settled(Returned(entry)), bg := if entry.stale then WantLock else t.bg));
    case None =>
      MissFine(prefix, s, i);
  }

  lemma MissFine(prefix: string, s: System, i: nat)
    requires Inv(prefix, s) && i < |s.tasks| && s.tasks[i].Keyed()
    ensures TurnFine(prefix, s, i, ClassifyTurn(s, s.tasks[i], None))
  {
    assert TaskOk(prefix, s, i);
    StayFine(prefix, s, i, ClassifyTurn(s, s.tasks[i], None).task);
  }

  lemma AcquireFine(prefix: string, s: System, i: nat, background: bool, reply: Reply)
    requires Inv(prefix, s) && i < |s.tasks| && s.tasks[i].Pc(background).WantLock?
    ensures TurnFine(prefix, s, i, AcquireTurn(s, s.tasks[i], background, reply))
  {
    var t := s.tasks[i];
    assert TaskOk(prefix, s, i);
    AtFine(prefix, s, i, background, if background then Off else Waiting(RETRIES));
    StayFine(prefix, s, i, Launch(s, t, background, Held(s.now + t.request.options.lockTtl * 1000), true));
    LockWriteFine(prefix, s, i, SetNx(s.db, LockKey(t.key), LockMark, t.request.options.lockTtl, s.now));
  }

  lemma FindOk(prefix: string, s: System, i: nat, delivered: bool)
    requires Inv(prefix, s) && i < |s.tasks| && s.tasks[i].Keyed()
    ensures var found := Find(s, s.tasks[i].key, delivered);
            found.Some? ==> SightingOk(s, found.value, s.tasks[i].key) && found.value.judgedMs <= s.now
  {
    var key := s.tasks[i].key;
    if key in s.db { assert CellOk(s, key, s.db[key]); }
  }

  lemma PollFine(prefix: string, s: System, i: nat, left: nat, delivered: bool)
    requires Inv(prefix, s) && i < |s.tasks| && s.tasks[i].fg.Waiting? && left > 0
    ensures TurnFine(prefix, s, i, PollTurn(s, s.tasks[i], left, delivered))
  {
    assert TaskOk(prefix, s, i);
    FindOk(prefix, s, i, delivered);
    var t := s.tasks[i];
    match Find(s, t.key, delivered)
    case Some(g) =>
      assert EntryOk(s, Entry(false, false, g.stored.v, Some(g)), t.key);
      StayFine(prefix, s, i, PollTurn(s, t, left, delivered).task);
    case None =>
      StayFine(prefix, s, i, if left == 1 then Launch(s, t, false, NoLease, false) else t.(fg := Waiting(left - 1)));
  }

  lemma AtFine(prefix: string, s: System, i: nat, background: bool, pc: Pc)
    requires Inv(prefix, s) && i < |s.tasks| && s.tasks[i].Keyed()
    requires PcOk(s, i, pc) && !Unkeyed(pc)
    ensures TurnFine(prefix, s, i, Stay(s, s.tasks[i].At(background, pc)))
  {
    assert TaskOk(prefix, s, i);
    StayFine(prefix, s, i, s.tasks[i].At(background, pc));
  }

  lemma FinishedFine(prefix: string, s: System, i: nat, background: bool, lease: Lease, out: Outcome)
    requires Inv(prefix, s) && i < |s.tasks| && s.tasks[i].Keyed()
    requires OutcomeOk(s, out, s.tasks[i].key)
    ensures TurnFine(prefix, s, i, Stay(s, Finished(s.tasks[i], background, lease, out)))
  {
    if lease.Held? {
      AtFine(prefix, s, i, background, Releasing(lease.until, out));
    } else {
      AtFine(prefix, s, i, background, Done(out));
      AtFine(prefix, s, i, false, Settled(out));
    }
  }

  lemma FinishFine(prefix: string, s: System, i: nat, background: bool, result: Option<Payload>)
    requires Inv(prefix, s) && i < |s.tasks| && s.tasks[i].Keyed() && s.tasks[i].Pc(background).Running?
    ensures TurnFine(prefix, s, i, FinishTurn(s, i, s.tasks[i], background, s.tasks[i].Pc(background), result))
  {
    var t, run := s.tasks[i], s.tasks[i].Pc(background);
    assert TaskOk(prefix, s, i);
    match result
    case None => FinishedFine(prefix, s, i, background, run.lease, Threw);
    case Some(payload) =>
      var value := Value(payload, i, run.born);
      assert MadeFor(s, value, t.key);
      if run.writes && t.request.options.shouldCache(payload) {
        AtFine(prefix, s, i, background, Writing(run.lease, value));
      } else {
        FinishedFine(prefix, s, i, background, run.lease, Returned(Entry(false, false, value, None)));
      }
  }

  lemma WriteFine(prefix: string, s: System, i: nat, background: bool, reply: Reply)
    requires Inv(prefix, s) && i < |s.tasks| && s.tasks[i].Pc(background).Writing?
    ensures var pc := s.tasks[i].Pc(background);
            TurnFine(prefix, s, i, WriteTurn(s, s.tasks[i], background, pc.lease, pc.value, reply))
  {
    var t, pc := s.tasks[i], s.tasks[i].Pc(background);
    assert TaskOk(prefix, s, i);
    EnvelopeFine(prefix, s, i, pc.value);
    FinishedFine(prefix, s, i, background, pc.lease, Threw);
    FinishedFine(prefix, s, i, background, pc.lease, Returned(Entry(false, false, pc.value, None)));
  }

  lemma EnvelopeFine(prefix: string, s: System, i: nat, value: Value)
    requires Inv(prefix, s) && i < |s.tasks| && s.tasks[i].Keyed() && Storable(s, value, s.tasks[i].key)
    requires value.maker == i
    ensures var t, o := s.tasks[i], s.tasks[i].request.options;
            var written := Set(s.db, t.key, Envelope(Stored(value, s.now, o.ttl), o.Window()), o.Window(), s.now);
            written.Some? ==> DbFine(prefix, s, written.value)
  {
    var t := s.tasks[i];
    assert TaskOk(prefix, s, i);
    KindsDisjoint(prefix, t.request.id, t.version, prefix, t.key);
  }

  lemma ReleaseFine(prefix: string, s: System, i: nat, background: bool, reply: Reply)
    requires Inv(prefix, s) && i < |s.tasks| && s.tasks[i].Pc(background).Releasing?
    ensures TurnFine(prefix, s, i, ReleaseTurn(s, s.tasks[i], background, s.tasks[i].Pc(background).out, reply))
  {
    assert TaskOk(prefix, s, i);
    LockWriteFine(prefix, s, i, s.db - {LockKey(s.tasks[i].key)});
  }

  lemma FollowFine(prefix: string, s: System, i: nat)
    requires Inv(prefix, s) && i < |s.tasks| && s.tasks[i].fg.Joined?
    ensures TurnFine(prefix, s, i, FollowTurn(s, s.tasks[i]))
  {
    var t := s.tasks[i];
    assert TaskOk(prefix, s, i);
    if t.leader.Some? { assert TaskOk(prefix, s, t.leader.value); }
  }

  lemma KeyedTurnFine(prefix: string, s: System, i: nat, op: Op)
    requires Inv(prefix, s) && i < |s.tasks| && s.tasks[i].Keyed()
    ensures TurnFine(prefix, s, i, TurnOf(prefix, s, i, op))
  {
    var t := s.tasks[i];
    assert TaskOk(prefix, s, i);
    StayFine(prefix, s, i, t);
    match op
    case Enter => if t.fg.Keyed? { EnterFine(prefix, s, i); }
    case Read(delivered) => FindOk(prefix, s, i, delivered);
    case Classify => if t.fg.Classifying? { ClassifyFine(prefix, s, i); }
    case Acquire(background, reply) => if t.Pc(background).WantLock? { AcquireFine(prefix, s, i, background, reply); }
    case Poll(delivered) => if t.fg.Waiting? && t.fg.left > 0 { PollFine(prefix, s, i, t.fg.left, delivered); }
    case Finish(background, result) => if t.Pc(background).Running? { FinishFine(prefix, s, i, background, result); }
    case Write(background, reply) => if t.Pc(background).Writing? { WriteFine(prefix, s, i, background, reply); }
    case Release(background, reply) => if t.Pc(background).Releasing? { ReleaseFine(prefix, s, i, background, reply); }
    case Follow => if t.fg.Joined? { FollowFine(prefix, s, i); }
    case _ =>
  }

  // ------------------------------------------------------------------ the invariant is kept

  /** A request without a key obtains one, or stays without. */
  lemma UnkeyedTurn(prefix: string, s: System, i: nat, op: Op)
    requires Inv(prefix, s) && i < |s.tasks| && !s.tasks[i].Keyed()
    ensures var t, turn := s.tasks[i], TurnOf(prefix, s, i, op);
            && turn.db == s.db && turn.inflight == s.inflight
            && (turn.task == TurnOf(prefix, s, i, ReadVersion).task
                || (!turn.task.Keyed() && turn.task.request == t.request && turn.task.bg == t.bg && turn.task.leader == t.leader))
  {
    assert TaskOk(prefix, s, i);
  }

  lemma LocalFine(prefix: string, s: System, i: nat, op: Op)
    requires Inv(prefix, s) && i < |s.tasks|
    ensures var turn := TurnOf(prefix, s, i, op);
            && TaskKept(s.tasks[i], turn.task)
            && DbFine(prefix, s, turn.db)
            && forall slot :: slot in turn.inflight ==> SlotOk(s, slot, turn.inflight[slot])
  {
    if s.tasks[i].Keyed() { KeyedTurnFine(prefix, s, i, op); } else { UnkeyedTurn(prefix, s, i, op); }
  }

  /** The counter's reading never goes down. */
  lemma VersionsGrow(prefix: string, s: System, a: Action)
    requires Inv(prefix, s)
    ensures CounterOk(prefix, Do(prefix, s, a).db)
    ensures Version(prefix, Do(prefix, s, a).db, Do(prefix, s, a).now) >= Version(prefix, s.db, s.now)
  {
    if a.Local? && a.i < |s.tasks| { LocalFine(prefix, s, a.i, a.op); }
  }

  lemma StepGrows(prefix: string, s: System, a: Action)
    requires Inv(prefix, s)
    ensures Grows(s, Step(prefix, s, a))
  {
    if a.Local? && a.i < |s.tasks| { LocalFine(prefix, s, a.i, a.op); }
  }

  lemma OwnTaskKept(prefix: string, s: System, i: nat, op: Op)
    requires Inv(prefix, s) && i < |s.tasks| && Grows(s, Step(prefix, s, Local(i, op)))
    ensures TaskOk(prefix, Step(prefix, s, Local(i, op)), i)
  {
    assert TaskOk(prefix, s, i);
    if s.tasks[i].Keyed() {
      KeyedTurnFine(prefix, s, i, op);
      TurnKept(prefix, s, Step(prefix, s, Local(i, op)), i, TurnOf(prefix, s, i, op));
    } else {
      UnkeyedTurn(prefix, s, i, op);
    }
  }

  lemma TurnKept(prefix: string, s: System, s': System, i: nat, turn: Turn)
    requires i < |s.tasks| && s.tasks[i].Keyed() && TaskOk(prefix, s, i) && TurnFine(prefix, s, i, turn)
    requires Grows(s, s') && s'.tasks == s.tasks[i := turn.task]
    ensures TaskOk(prefix, s', i)
  {
    PcKept(s, s', i, turn.task.fg);
    PcKept(s, s', i, turn.task.bg);
    if turn.task.leader.Some? {
      assert TaskKept(s.tasks[turn.task.leader.value], s'.tasks[turn.task.leader.value]);
    }
  }

  lemma LocalKeepsTasks(prefix: string, s: System, i: nat, op: Op)
    requires Inv(prefix, s) && i < |s.tasks|
    ensures var s' := Step(prefix, s, Local(i, op)); forall j :: 0 <= j < |s'.tasks| ==> TaskOk(prefix, s', j)
  {
    var s' := Step(prefix, s, Local(i, op));
    StepGrows(prefix, s, Local(i, op));
    OwnTaskKept(prefix, s, i, op);
    forall j | 0 <= j < |s'.tasks|
      ensures TaskOk(prefix, s', j)
    {
      if j != i { TaskOkKept(prefix, s, s', j); }
    }
  }

  lemma StepKeepsTasks(prefix: string, s: System, a: Action)
    requires Inv(prefix, s)
    ensures var s' := Step(prefix, s, a); forall j :: 0 <= j < |s'.tasks| ==> TaskOk(prefix, s', j)
  {
    if a.Local? && a.i < |s.tasks| {
      LocalKeepsTasks(prefix, s, a.i, a.op);
    } else {
      var s' := Step(prefix, s, a);
      StepGrows(prefix, s, a);
      forall j | 0 <= j < |s'.tasks|
        ensures TaskOk(prefix, s', j)
      {
        if j < |s.tasks| { TaskOkKept(prefix, s, s', j); }
      }
    }
  }

  lemma StepKeepsCells(prefix: string, s: System, a: Action)
    requires Inv(prefix, s)
    ensures var s' := Step(prefix, s, a); forall key :: key in s'.db ==> CellOk(s', key, s'.db[key])
  {
    var s' := Step(prefix, s, a);
    StepGrows(prefix, s, a);
    forall key | key in s'.db
      ensures CellOk(s', key, s'.db[key])
    {
      if a.Local? && a.i < |s.tasks| { LocalFine(prefix, s, a.i, a.op); }
      assert CellOk(s, key, s'.db[key]);
      CellKept(s, s', key, s'.db[key]);
    }
  }

  lemma StepKeepsInflight(prefix: string, s: System, a: Action)
    requires Inv(prefix, s)
    ensures InflightOk(Step(prefix, s, a))
  {
    var s' := Step(prefix, s, a);
    StepGrows(prefix, s, a);
    forall slot | slot in s'.inflight
      ensures SlotOk(s', slot, s'.inflight[slot])
    {
      if a.Local? && a.i < |s.tasks| { LocalFine(prefix, s, a.i, a.op); }
      assert SlotOk(s, slot, s'.inflight[slot]);
      assert TaskKept(s.tasks[s'.inflight[slot]], s'.tasks[s'.inflight[slot]]);
    }
  }

  lemma StepKeepsInv(prefix: string, s: System, a: Action)
    requires Inv(prefix, s)
    ensures Inv(prefix, Step(prefix, s, a))
  {
    StepKeepsTasks(prefix, s, a);
    StepKeepsCells(prefix, s, a);
    StepKeepsInflight(prefix, s, a);
    VersionsGrow(prefix, s, a);
  }

  /** Every state of every run satisfies the invariant. */
  lemma {:induction false} RunKeepsInv(prefix: string, s: System, actions: seq<Action>)
    requires Initial(prefix, s)
    ensures Inv(prefix, Exec(prefix, s, actions))
  {
    if actions == [] {
    } else {
      RunKeepsInv(prefix, s, actions[..|actions| - 1]);
      StepKeepsInv(prefix, Exec(prefix, s, actions[..|actions| - 1]), actions[|actions| - 1]);
    }
  }
}
