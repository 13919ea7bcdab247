/** The stampede lock: who can hold it, and exactly what breaks its exclusion. The release deletes the
    lock without checking whose it is, so exclusion rests on every holder finishing within the lock's TTL,
    and on nobody deleting the lock key, which an eviction of the same entity does. */
module CacheLock {
  import opened CacheFlight
  import opened CacheInvariant
  import opened CacheKeys
  import opened CacheProtocol
  import opened Optional
  import opened Redis

  // ------------------------------------------------------------------ holders

  predicate HasLease(pc: Pc) {
    match pc
    case Running(lease, _, _) => lease.Held?
    case Writing(lease, _) => lease.Held?
    case Releasing(_, _) => true
    case _ => false
  }

  function LeaseEnd(pc: Pc): int
    requires HasLease(pc)
  {
    match pc
    case Running(lease, _, _) => lease.until
    case Writing(lease, _) => lease.until
    case Releasing(until, _) => until
  }

  /** A request holds its key's lock in its foreground or in its background refresh (never in both). */
  predicate Holding(t: Task) { HasLease(t.fg) || HasLease(t.bg) }

  /** Until when Redis keeps the lock this request took. */
  function Until(t: Task): int
    requires Holding(t)
  {
    if HasLease(t.fg) then LeaseEnd(t.fg) else LeaseEnd(t.bg)
  }

  /** A holder's lock is in Redis, with the expiry it was taken with, and has not expired. */
  predicate Backed(s: System, t: Task) {
    Holding(t) ==>
      && t.Keyed()
      && LockKey(t.key) in s.db
      && s.db[LockKey(t.key)] == Cell(LockMark, Some(Until(t)))
      && s.now <= Until(t)
  }

  predicate HoldsKey(t: Task, key: string) { Holding(t) && t.key == key }

  ghost predicate Exclusive(s: System, key: string) {
    forall i, j :: 0 <= i < |s.tasks| && 0 <= j < |s.tasks| && i != j ==>
      !(HoldsKey(s.tasks[i], key) && HoldsKey(s.tasks[j], key))
  }

  /** About the holders of one key's lock. */
  ghost predicate LockInv(s: System, key: string) {
    (forall i :: 0 <= i < |s.tasks| && HoldsKey(s.tasks[i], key) ==> Backed(s, s.tasks[i])) && Exclusive(s, key)
  }

  /** Time does not pass the deadline of the key's holder, and evictions spare the key's lock while it is held. */
  ghost predicate Safe(s: System, a: Action, key: string) {
    match a
    case Tick(ms) => forall t :: t in s.tasks && HoldsKey(t, key) ==> s.now + ms <= Until(t)
    case Delete(keys) => (exists t :: t in s.tasks && HoldsKey(t, key)) ==> LockKey(key) !in keys
    case _ => true
  }

  ghost predicate SafeRun(prefix: string, s: System, actions: seq<Action>, key: string)
    requires s.versions != []
  {
    actions != [] ==>
      && SafeRun(prefix, s, actions[..|actions| - 1], key)
      && Safe(Exec(prefix, s, actions[..|actions| - 1]), actions[|actions| - 1], key)
  }

  // ------------------------------------------------------------------ one request's step

  ghost predicate SameCell(db: Db, db': Db, key: string) {
    (key in db <==> key in db') && (key in db ==> db'[key] == db[key])
  }

  /** What a step does to its own lock: keep it, take it while it is free, give it up, or neither hold it
      nor disturb a live one. */
  ghost predicate OwnMove(s: System, t: Task, turn: Turn) {
    var lock, t' := LockKey(t.key), turn.task;
    if Holding(t) then
      Holding(t') ==> Until(t') == Until(t) && SameCell(s.db, turn.db, lock)
    else if Holding(t') then
      && t.Keyed() && Get(s.db, lock, s.now).None? && s.now <= Until(t')
      && lock in turn.db && turn.db[lock] == Cell(LockMark, Some(Until(t')))
    else
      Get(s.db, lock, s.now).None? || SameCell(s.db, turn.db, lock)
  }

  lemma OthersKept(prefix: string, s: System, i: nat, op: Op, key: string)
    requires s.versions != [] && i < |s.tasks|
    requires key != s.tasks[i].key && key != LockKey(s.tasks[i].key)
    ensures SameCell(s.db, TurnOf(prefix, s, i, op).db, key)
  {
  }

  ghost predicate OwnOk(prefix: string, s: System, i: nat, op: Op)
    requires s.versions != [] && i < |s.tasks|
  {
    OwnMove(s, s.tasks[i], TurnOf(prefix, s, i, op))
  }

  lemma EarlyOwn(prefix: string, s: System, i: nat, op: Op)
    requires s.versions != [] && i < |s.tasks| && RunsOk(s.tasks[i])
    requires !op.Acquire? && !op.Write? && !op.Release? && !op.Finish?
    ensures OwnOk(prefix, s, i, op)
  {
  }

  lemma AcquireOwn(prefix: string, s: System, i: nat, op: Op)
    requires s.versions != [] && i < |s.tasks| && TaskOk(prefix, s, i) && RunsOk(s.tasks[i]) && op.Acquire?
    ensures OwnOk(prefix, s, i, op)
  {
  }

  lemma FinishOwn(prefix: string, s: System, i: nat, op: Op)
    requires s.versions != [] && i < |s.tasks| && TaskOk(prefix, s, i) && RunsOk(s.tasks[i]) && (op.Finish? || op.Write?)
    ensures OwnOk(prefix, s, i, op)
  {
    var t := s.tasks[i];
    if t.Keyed() { KindsDisjoint(prefix, t.request.id, t.version, prefix, t.key); }
  }

  lemma ReleaseOwn(prefix: string, s: System, i: nat, op: Op)
    requires s.versions != [] && i < |s.tasks| && TaskOk(prefix, s, i) && RunsOk(s.tasks[i]) && op.Release?
    ensures OwnOk(prefix, s, i, op)
  {
  }

  lemma Own(prefix: string, s: System, i: nat, op: Op)
    requires Inv(prefix, s) && FlightInv(s) && i < |s.tasks|
    ensures OwnOk(prefix, s, i, op)
  {
    assert TaskOk(prefix, s, i) && TaskFlight(s, s.tasks[i]);
    match op
    case Acquire(_, _) => AcquireOwn(prefix, s, i, op);
    case Finish(_, _) => FinishOwn(prefix, s, i, op);
    case Write(_, _) => FinishOwn(prefix, s, i, op);
    case Release(_, _) => ReleaseOwn(prefix, s, i, op);
    case _ => EarlyOwn(prefix, s, i, op);
  }

  // ------------------------------------------------------------------ exclusion over every safe run

  /** The step of a request leaves another holder's lock alone, and does not make its own request hold the same key. */
  lemma OtherHolderKept(prefix: string, s: System, i: nat, op: Op, j: nat)
    requires Inv(prefix, s) && FlightInv(s) && i < |s.tasks| && j < |s.tasks| && i != j
    requires Holding(s.tasks[j]) && LockInv(s, s.tasks[j].key)
    ensures SameCell(s.db, TurnOf(prefix, s, i, op).db, LockKey(s.tasks[j].key))
    ensures !HoldsKey(TurnOf(prefix, s, i, op).task, s.tasks[j].key)
  {
    var t, h := s.tasks[i], s.tasks[j];
    Own(prefix, s, i, op);
    LocalFine(prefix, s, i, op);
    assert HoldsKey(h, h.key) && Backed(s, h) && TaskOk(prefix, s, i) && TaskOk(prefix, s, j);
    if t.key == h.key && t.Keyed() {
      assert !HoldsKey(t, h.key);
    } else if t.Keyed() {
      if LockKey(t.key) == LockKey(h.key) { LockKeyInjective(t.key, h.key); }
      KindsDisjoint(prefix, t.request.id, t.version, prefix, h.key);
      OthersKept(prefix, s, i, op, LockKey(h.key));
    } else {
      UnkeyedTurn(prefix, s, i, op);
    }
  }

  /** The stepping request itself: if it holds the key afterwards, it is backed. */
  lemma OwnHolderBacked(prefix: string, s: System, i: nat, op: Op, key: string)
    requires Inv(prefix, s) && FlightInv(s) && LockInv(s, key) && i < |s.tasks|
    ensures var s' := Step(prefix, s, Local(i, op)); HoldsKey(s'.tasks[i], key) ==> Backed(s', s'.tasks[i])
  {
    assert TaskOk(prefix, s, i);
    Own(prefix, s, i, op);
    LocalFine(prefix, s, i, op);
    if Holding(s.tasks[i]) && s.tasks[i].key == key { assert HoldsKey(s.tasks[i], key) && Backed(s, s.tasks[i]); }
    if !s.tasks[i].Keyed() { UnkeyedTurn(prefix, s, i, op); }
  }

  lemma LocalKeepsLocks(prefix: string, s: System, i: nat, op: Op, key: string)
    requires Inv(prefix, s) && FlightInv(s) && LockInv(s, key) && i < |s.tasks|
    ensures LockInv(Step(prefix, s, Local(i, op)), key)
  {
    var s' := Step(prefix, s, Local(i, op));
    OwnHolderBacked(prefix, s, i, op, key);
    forall j | 0 <= j < |s'.tasks| && j != i && HoldsKey(s'.tasks[j], key)
      ensures Backed(s', s'.tasks[j]) && !HoldsKey(s'.tasks[i], key)
    {
      assert HoldsKey(s.tasks[j], key) && Backed(s, s.tasks[j]);
      OtherHolderKept(prefix, s, i, op, j);
    }
  }

  /** What a held lock's key is not: anybody else's, or the counter's. */
  lemma LockIsOurs(prefix: string, s: System, i: nat)
    requires Inv(prefix, s) && i < |s.tasks| && s.tasks[i].Keyed()
    ensures LockKey(s.tasks[i].key) != VersionKey(prefix) && Ours(prefix, LockKey(s.tasks[i].key))
  {
    var t := s.tasks[i];
    assert TaskOk(prefix, s, i);
    KindsDisjoint(prefix, t.request.id, t.version, prefix, t.key);
  }

  lemma HeldLockSurvives(prefix: string, s: System, a: Action, j: nat)
    requires Inv(prefix, s) && j < |s.tasks| && Holding(s.tasks[j]) && s.tasks[j].Keyed()
    requires Safe(s, a, s.tasks[j].key) && !a.Local?
    ensures SameCell(s.db, Do(prefix, s, a).db, LockKey(s.tasks[j].key))
  {
    assert s.tasks[j] in s.tasks && HoldsKey(s.tasks[j], s.tasks[j].key);
    LockIsOurs(prefix, s, j);
  }

  lemma ElsewhereKeepsLocks(prefix: string, s: System, a: Action, key: string)
    requires Inv(prefix, s) && LockInv(s, key) && Safe(s, a, key) && !a.Local?
    ensures LockInv(Step(prefix, s, a), key)
  {
    var s' := Step(prefix, s, a);
    forall j | 0 <= j < |s'.tasks| && HoldsKey(s'.tasks[j], key)
      ensures j < |s.tasks| && s'.tasks[j] == s.tasks[j] && Backed(s', s'.tasks[j])
    {
      assert Backed(s, s.tasks[j]) && s.tasks[j] in s.tasks;
      HeldLockSurvives(prefix, s, a, j);
    }
  }

  lemma {:induction false} RunKeepsLocks(prefix: string, s: System, actions: seq<Action>, key: string)
    requires Initial(prefix, s) && SafeRun(prefix, s, actions, key)
    ensures LockInv(Exec(prefix, s, actions), key)
  {
    if actions == [] {
    } else {
      var prior, a := actions[..|actions| - 1], actions[|actions| - 1];
      var st := Exec(prefix, s, prior);
      RunKeepsLocks(prefix, s, prior, key);
      RunKeepsInv(prefix, s, prior);
      RunKeepsFlight(prefix, s, prior);
      if !a.Local? {
        ElsewhereKeepsLocks(prefix, st, a, key);
      } else if a.i < |st.tasks| {
        LocalKeepsLocks(prefix, st, a.i, a.op, key);
      }
    }
  }

  /** If every holder of a key's lock finishes within the lock's TTL and no eviction deletes the lock while it
      is held, then in every interleaving at most one foreground compute or background refresh holds it,
      whatever happens to the locks of other keys. */
  lemma LockExclusion(prefix: string, s: System, actions: seq<Action>, key: string, i: nat, j: nat)
    requires Initial(prefix, s) && SafeRun(prefix, s, actions, key)
    requires var end := Exec(prefix, s, actions);
             i < |end.tasks| && j < |end.tasks| && HoldsKey(end.tasks[i], key) && HoldsKey(end.tasks[j], key)
    ensures i == j && !(HasLease(Exec(prefix, s, actions).tasks[i].fg) && HasLease(Exec(prefix, s, actions).tasks[i].bg))
  {
    RunKeepsLocks(prefix, s, actions, key);
    RunKeepsFlight(prefix, s, actions);
    assert TaskFlight(Exec(prefix, s, actions), Exec(prefix, s, actions).tasks[i]);
  }

  // ------------------------------------------------------------------ only the holder writes

  /** A resolution that asks for the lock, and any background refresh, writes the key only under its lease. */
  predicate WritesUnderLease(t: Task) {
    && (t.bg.Running? || t.bg.Writing? ==> HasLease(t.bg))
    && (t.request.options.lock && !t.request.kind.Bypass? ==>
          && (t.fg.Writing? ==> HasLease(t.fg))
          && (t.fg.Running? && t.fg.writes ==> HasLease(t.fg)))
  }

  lemma {:induction false} RunWritesUnderLease(prefix: string, s: System, actions: seq<Action>)
    requires Initial(prefix, s)
    ensures forall t :: t in Exec(prefix, s, actions).tasks ==> WritesUnderLease(t)
  {
    if actions == [] {
    } else {
      var prior, a := actions[..|actions| - 1], actions[|actions| - 1];
      var st, end := Exec(prefix, s, prior), Exec(prefix, s, actions);
      RunWritesUnderLease(prefix, s, prior);
      RunKeepsFlight(prefix, s, prior);
      forall j | 0 <= j < |end.tasks|
        ensures WritesUnderLease(end.tasks[j])
      {
        if j < |st.tasks| {
          assert st.tasks[j] in st.tasks && TaskFlight(st, st.tasks[j]);
          if a.Local? && a.i == j { TurnWritesUnderLease(prefix, st, j, a.op); }
        }
      }
    }
  }

  lemma TurnWritesUnderLease(prefix: string, s: System, i: nat, op: Op)
    requires s.versions != [] && i < |s.tasks| && RunsOk(s.tasks[i]) && WritesUnderLease(s.tasks[i])
    ensures WritesUnderLease(TurnOf(prefix, s, i, op).task)
  {
    if op.Enter? || op.Classify? || op.Poll? { LaunchesUnderLease(prefix, s, i, op); }
    if op.Acquire? { AcquiresUnderLease(prefix, s, i, op); }
  }

  lemma AcquiresUnderLease(prefix: string, s: System, i: nat, op: Op)
    requires s.versions != [] && i < |s.tasks| && RunsOk(s.tasks[i]) && WritesUnderLease(s.tasks[i])
    requires op.Acquire?
    ensures WritesUnderLease(TurnOf(prefix, s, i, op).task)
  {
  }

  lemma LaunchesUnderLease(prefix: string, s: System, i: nat, op: Op)
    requires s.versions != [] && i < |s.tasks| && RunsOk(s.tasks[i]) && WritesUnderLease(s.tasks[i])
    requires op.Enter? || op.Classify? || op.Poll?
    ensures WritesUnderLease(TurnOf(prefix, s, i, op).task)
  {
  }

  /** Writing the key, in a background refresh or in a resolution that asks for the lock. */
  predicate WritesLocked(t: Task) {
    t.bg.Writing? || (t.fg.Writing? && t.request.options.lock && !t.request.kind.Bypass?)
  }

  /** At most one background refresh, or resolution with the lock, is writing a key at a time. */
  lemma OneWriterPerKey(prefix: string, s: System, actions: seq<Action>, key: string, i: nat, j: nat)
    requires Initial(prefix, s) && SafeRun(prefix, s, actions, key)
    requires var end := Exec(prefix, s, actions);
             && i < |end.tasks| && j < |end.tasks| && WritesLocked(end.tasks[i]) && WritesLocked(end.tasks[j])
             && end.tasks[i].key == key && end.tasks[j].key == key
    ensures i == j
  {
    var end := Exec(prefix, s, actions);
    RunWritesUnderLease(prefix, s, actions);
    assert end.tasks[i] in end.tasks && end.tasks[j] in end.tasks;
    LockExclusion(prefix, s, actions, key, i, j);
  }

  // ------------------------------------------------------------------ exactly what breaks it

  /** Let i hold a key's lock and j want it. After time passes, or keys are deleted, j's SET NX succeeds,
      so that both hold it, exactly when the deadline was overrun, or the lock was among the keys. */
  lemma SecondHolderIff(prefix: string, s: System, a: Action, i: nat, j: nat, background: bool)
    requires i < |s.tasks| && Inv(prefix, s) && LockInv(s, s.tasks[i].key) && (a.Tick? || (a.Delete? && VersionKey(prefix) !in a.keys))
    requires j < |s.tasks| && i != j && Holding(s.tasks[i])
    requires s.tasks[j].key == s.tasks[i].key && s.tasks[j].Pc(background).WantLock?
    requires s.tasks[j].request.options.lockTtl > 0
    ensures var end := Step(prefix, Step(prefix, s, a), Local(j, Acquire(background, Delivered)));
            (Holding(end.tasks[i]) && HasLease(end.tasks[j].Pc(background)) && end.tasks[i].key == end.tasks[j].key)
            <==> (match a case Tick(ms) => s.now + ms > Until(s.tasks[i]) case Delete(keys) => LockKey(s.tasks[i].key) in keys)
  {
    var t, s1 := s.tasks[i], Step(prefix, s, a);
    assert HoldsKey(t, t.key) && Backed(s, t) && TaskOk(prefix, s, j);
    assert s1.tasks == s.tasks;
    SecondAcquire(prefix, s1, i, j, background);
  }

  /** SET NX succeeds, beside a holder, exactly when the lock is no longer there. */
  lemma SecondAcquire(prefix: string, s: System, i: nat, j: nat, background: bool)
    requires s.versions != [] && i < |s.tasks| && j < |s.tasks| && i != j && Holding(s.tasks[i])
    requires s.tasks[j].key == s.tasks[i].key && s.tasks[j].Pc(background).WantLock?
    requires s.tasks[j].request.options.lockTtl > 0
    ensures var end := Step(prefix, s, Local(j, Acquire(background, Delivered)));
            (Holding(end.tasks[i]) && HasLease(end.tasks[j].Pc(background)) && end.tasks[i].key == end.tasks[j].key)
            <==> Get(s.db, LockKey(s.tasks[i].key), s.now).None?
  {
    assert TurnOf(prefix, s, j, Acquire(background, Delivered)) == AcquireTurn(s, s.tasks[j], background, Delivered);
  }

  /** Deleting an entity deletes the locks of all its versions: the eviction itself lets a second compute in. */
  lemma EvictionDropsHeldLock(prefix: string, s: System, i: nat, keys: set<string>)
    requires Inv(prefix, s) && i < |s.tasks| && s.tasks[i].Keyed()
    requires Literal(prefix) && Literal(s.tasks[i].request.id)
    requires forall key :: key in keys <==> key in s.db && GlobMatch(EntityPattern(prefix, s.tasks[i].request.id), key)
    ensures VersionKey(prefix) !in keys
    ensures LockKey(s.tasks[i].key) in s.db ==> LockKey(s.tasks[i].key) in keys
  {
    var t := s.tasks[i];
    assert TaskOk(prefix, s, i);
    EntityPatternReach(prefix, t.request.id, t.request.id, t.version);
  }
}
