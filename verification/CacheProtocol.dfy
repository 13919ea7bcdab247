/** The cache service as an interleaving of atomic steps: any number of requests, on any number of
    application instances, over one Redis. A step is one Redis command or one stretch of code
    between two awaits; between any two steps of a request any steps of others may happen.

    All requests are for versioned keys of one prefix; everything else in Redis is `Env`. */
module CacheProtocol {
  import opened CacheKeys
  import opened Optional
  import opened Redis

  // ------------------------------------------------------------------ requests and values

  /** A handler's result: JavaScript's undefined, or something JSON can carry. */
  datatype Payload = Undefined | Json(data: int)

  datatype Options = Options(ttl: int, staleTtl: int, lock: bool, lockTtl: int, shouldCache: Payload -> bool) {
    /** Seconds for which a written entry is kept in Redis. */
    function Window(): int { ttl + if staleTtl > 0 then staleTtl else 0 }
  }

  /** Cached requests go through `resolve`; a bypass runs the handler and writes through; an evicting request
      runs the handler, then waits for its evictions, which are `Bump` and `Delete` actions. */
  datatype Kind = Cached | Bypass | Evict

  datatype Request = Request(instance: nat, id: string, kind: Kind, options: Options)

  /** A value with its history: which request's factory made it, and at which step that factory started. */
  datatype Value = Value(payload: Payload, maker: nat, born: nat)

  /** The stored envelope. */
  datatype Stored = Stored(v: Value, createdAt: int, ttl: int)

  /** What Redis holds. `window` records the TTL the envelope was written with. */
  datatype Content = Envelope(stored: Stored, window: int) | Counter(n: nat) | LockMark | Other

  type Db = Store<Content>

  /** An envelope read at `readMs` and classified at `judgedMs`. */
  datatype Sighting = Sighting(stored: Stored, window: int, readMs: int, judgedMs: int)

  datatype Entry = Entry(hit: bool, stale: bool, value: Value, seen: Option<Sighting>)

  datatype Outcome = Returned(entry: Entry) | Threw

  // ------------------------------------------------------------------ program points

  /** `Held(until)`: the thread took the key's lock, which Redis keeps until that time. */
  datatype Lease = NoLease | Held(until: int)

  datatype Pc =
    | Off                                               // no background refresh was started
    | NeedVersion                                       // building the key, if it needs one
    | Handling                                          // evicting request: awaiting the handler
    | Evicting                                          // evicting request: awaiting the evictions
    | Evicted(ok: bool)                                 // evicting request: answered, or rethrown
    | Keyed                                             // about to call resolve, or to run the handler
    | Joined                                            // awaiting another request's promise
    | Reading                                           // awaiting the cache read
    | Classifying(found: Option<Sighting>)
    | WantLock                                          // awaiting SET NX
    | Waiting(left: nat)                                // polling for the lock holder's value
    | Running(lease: Lease, writes: bool, born: nat)    // awaiting the factory
    | Writing(lease: Lease, value: Value)               // awaiting the cache write
    | Releasing(until: int, out: Outcome)               // awaiting DEL of the lock
    | Settled(out: Outcome)                             // promise settled, map entry not yet removed
    | Done(out: Outcome)

  /** Before the version is read, and throughout an evicting request, there is no key. */
  predicate Unkeyed(pc: Pc) { pc.NeedVersion? || pc.Handling? || pc.Evicting? || pc.Evicted? }

  /** One request: its foreground thread, its background refresh, and how often its factory was started. */
  datatype Task = Task(request: Request, key: string, version: nat, readAt: nat,
                       fg: Pc, bg: Pc, runs: nat, leader: Option<nat>)
  {
    function Pc(background: bool): Pc { if background then bg else fg }

    function At(background: bool, pc: Pc): Task { if background then this.(bg := pc) else this.(fg := pc) }

    predicate Keyed() { !Unkeyed(fg) }
  }

  function NewTask(r: Request): Task { Task(r, "", 0, 0, NeedVersion, Off, 0, None) }

  /** `inflight` holds every instance's map; `versions` is the counter's reading in every state so far. */
  datatype System = System(now: int, db: Db, tasks: seq<Task>, inflight: map<(nat, string), nat>, versions: seq<nat>)

  const RETRIES: nat := 5

  // ------------------------------------------------------------------ version counter

  /** `getVersion`: an absent counter reads as 1. */
  function Version(prefix: string, db: Db, now: int): nat {
    match Get<Content>(db, VersionKey(prefix), now)
    case Some(Counter(n)) => n
    case _ => 1
  }

  predicate CounterPresent(prefix: string, db: Db, now: int) {
    Get(db, VersionKey(prefix), now).Some?
  }

  /** `bumpVersion`: INCR starts an absent counter at 1 and sets no expiry. */
  function Bumped(prefix: string, db: Db, now: int): Db {
    match Get<Content>(db, VersionKey(prefix), now)
    case Some(Counter(n)) => db[VersionKey(prefix) := Cell(Counter(n + 1), None)]
    case Some(_) => db
    case None => db[VersionKey(prefix) := Cell(Counter(1), None)]
  }

  // ------------------------------------------------------------------ one thread's steps

  /** A Redis command either answers, or fails with or without having been applied. */
  datatype Reply = Delivered | Failed(applied: bool)

  datatype Op =
    | ReadVersion
    | Enter
    | Read(delivered: bool)
    | Classify
    | Acquire(background: bool, reply: Reply)
    | Poll(delivered: bool)
    | Finish(background: bool, result: Option<Payload>)
    | Write(background: bool, reply: Reply)
    | Release(background: bool, reply: Reply)
    | Cleanup
    | Follow
    | Handle
    | HandlerEnds(ok: bool)
    | EvictionEnds

  datatype Turn = Turn(task: Task, db: Db, inflight: map<(nat, string), nat>)

  function Stay(s: System, t: Task): Turn { Turn(t, s.db, s.inflight) }

  function Launch(s: System, t: Task, background: bool, lease: Lease, writes: bool): Task
    requires s.versions != []
  {
    t.At(background, Running(lease, writes, |s.versions| - 1)).(runs := t.runs + 1)
  }

  /** End of a thread: a bypass or a background refresh is done, a resolution settles its promise. */
  function Conclude(t: Task, background: bool, out: Outcome): Task {
    if background || t.request.kind.Bypass? then t.At(background, Done(out)) else t.(fg := Settled(out))
  }

  /** The value is there (or not to be had): first give the lock back, if this thread took it. */
  function Finished(t: Task, background: bool, lease: Lease, out: Outcome): Task {
    if lease.Held? then t.At(background, Releasing(lease.until, out)) else Conclude(t, background, out)
  }

  function Find(s: System, key: string, delivered: bool): Option<Sighting> {
    var got: Option<Content> := if delivered then Get(s.db, key, s.now) else None;
    match got
    case Some(Envelope(stored, window)) => Some(Sighting(stored, window, s.now, s.now))
    case _ => None
  }

  predicate IsFresh(stored: Stored, now: int) {
    now - stored.createdAt <= stored.ttl * 1000
  }

  function EnterTurn(s: System, i: nat, t: Task): Turn
    requires s.versions != []
  {
    var slot := (t.request.instance, t.key);
    if t.request.kind.Bypass? then Stay(s, Launch(s, t, false, NoLease, true))
    else if slot in s.inflight then Stay(s, t.(fg := Joined, leader := Some(s.inflight[slot])))
    else Turn(t.(fg := Reading), s.db, s.inflight[slot := i])
  }

  function ClassifyTurn(s: System, t: Task, found: Option<Sighting>): Turn
    requires s.versions != []
  {
    match found
    case Some(g) =>
      var entry := Entry(true, !IsFresh(g.stored, s.now), g.stored.v, Some(g.(judgedMs := s.now)));
      Stay(s, t.(fg := Settled(Returned(entry)), bg := if entry.stale then WantLock else t.bg))
    case None =>
      Stay(s, if t.request.options.lock then t.(fg := WantLock) else Launch(s, t, false, NoLease, true))
  }

  function AcquireTurn(s: System, t: Task, background: bool, reply: Reply): Turn
    requires s.versions != []
  {
    var ttl := t.request.options.lockTtl;
    var free := CanSetNx(s.db, LockKey(t.key), ttl, s.now);
    var db := if free && reply != Failed(false) then SetNx(s.db, LockKey(t.key), LockMark, ttl, s.now) else s.db;
    if free && reply.Delivered? then
      Turn(Launch(s, t, background, Held(s.now + ttl * 1000), true), db, s.inflight)
    else
      Turn(t.At(background, if background then Off else Waiting(RETRIES)), db, s.inflight)
  }

  function PollTurn(s: System, t: Task, left: nat, delivered: bool): Turn
    requires s.versions != [] && left > 0
  {
    match Find(s, t.key, delivered)
    case Some(g) =>
      if g.stored.v.payload.Undefined? then Stay(s, Launch(s, t, false, NoLease, false))
      else Stay(s, t.(fg := Settled(Returned(Entry(false, false, g.stored.v, Some(g))))))
    case None =>
      Stay(s, if left == 1 then Launch(s, t, false, NoLease, false) else t.(fg := Waiting(left - 1)))
  }

  function FinishTurn(s: System, i: nat, t: Task, background: bool, run: Pc, result: Option<Payload>): Turn
    requires run.Running?
  {
    match result
    case None => Stay(s, Finished(t, background, run.lease, Threw))
    case Some(payload) =>
      var value := Value(payload, i, run.born);
      if run.writes && t.request.options.shouldCache(payload)
      then Stay(s, t.At(background, Writing(run.lease, value)))
      else Stay(s, Finished(t, background, run.lease, Returned(Entry(false, false, value, None))))
  }

  function WriteTurn(s: System, t: Task, background: bool, lease: Lease, value: Value, reply: Reply): Turn {
    var o := t.request.options;
    var written := Set(s.db, t.key, Envelope(Stored(value, s.now, o.ttl), o.Window()), o.Window(), s.now);
    var db := if written.Some? && reply != Failed(false) then written.value else s.db;
    var out := if written.Some? && reply.Delivered? then Returned(Entry(false, false, value, None)) else Threw;
    Turn(Finished(t, background, lease, out), db, s.inflight)
  }

  function ReleaseTurn(s: System, t: Task, background: bool, out: Outcome, reply: Reply): Turn {
    Turn(Conclude(t, background, out),
         if reply == Failed(false) then s.db else s.db - {LockKey(t.key)},
         s.inflight)
  }

  function FollowTurn(s: System, t: Task): Turn {
    if t.leader.Some? && t.leader.value < |s.tasks| then
      match s.tasks[t.leader.value].fg
      case Settled(out) => Stay(s, t.(fg := Done(out)))
      case Done(out) => Stay(s, t.(fg := Done(out)))
      case _ => Stay(s, t)
    else Stay(s, t)
  }

  /** The step `op` of request `i`; a step that its program point does not allow changes nothing. */
  function TurnOf(prefix: string, s: System, i: nat, op: Op): Turn
    requires i < |s.tasks| && s.versions != []
  {
    var t := s.tasks[i];
    match op
    case ReadVersion =>
      if t.fg.NeedVersion? && !t.request.kind.Evict? then
        var v := Version(prefix, s.db, s.now);
        Stay(s, t.(fg := Keyed, key := VersionedKey(prefix, t.request.id, v), version := v, readAt := |s.versions| - 1))
      else Stay(s, t)
    case Enter => if t.fg.Keyed? then EnterTurn(s, i, t) else Stay(s, t)
    case Read(delivered) =>
      if t.fg.Reading? then Stay(s, t.(fg := Classifying(Find(s, t.key, delivered)))) else Stay(s, t)
    case Classify => if t.fg.Classifying? then ClassifyTurn(s, t, t.fg.found) else Stay(s, t)
    case Acquire(background, reply) =>
      if t.Pc(background).WantLock? then AcquireTurn(s, t, background, reply) else Stay(s, t)
    case Poll(delivered) =>
      if t.fg.Waiting? && t.fg.left > 0 then PollTurn(s, t, t.fg.left, delivered) else Stay(s, t)
    case Finish(background, result) =>
      if t.Pc(background).Running? then FinishTurn(s, i, t, background, t.Pc(background), result) else Stay(s, t)
    case Write(background, reply) =>
      var pc := t.Pc(background);
      if pc.Writing? then WriteTurn(s, t, background, pc.lease, pc.value, reply) else Stay(s, t)
    case Release(background, reply) =>
      var pc := t.Pc(background);
      if pc.Releasing? then ReleaseTurn(s, t, background, pc.out, reply) else Stay(s, t)
    case Cleanup =>
      if t.fg.Settled? then
        Turn(t.(fg := Done(t.fg.out)), s.db, s.inflight - {(t.request.instance, t.key)})
      else Stay(s, t)
    case Follow => if t.fg.Joined? then FollowTurn(s, t) else Stay(s, t)
    case Handle =>
      Stay(s, if t.fg.NeedVersion? && t.request.kind.Evict? then t.(fg := Handling, runs := t.runs + 1) else t)
    case HandlerEnds(ok) => Stay(s, if !t.fg.Handling? then t else if ok then t.(fg := Evicting) else t.(fg := Evicted(false)))
    case EvictionEnds => Stay(s, if t.fg.Evicting? then t.(fg := Evicted(true)) else t)
  }

  // ------------------------------------------------------------------ the whole system

  datatype Action =
    | Tick(ms: nat)
    | Arrive(request: Request)
    | Local(i: nat, op: Op)
    | Bump                                              // INCR of an eviction
    | Delete(keys: set<string>)                         // DEL of the keys an eviction's pattern matched
    | Env(key: string, cell: Option<Cell<Content>>)     // anybody else's use of Redis

  /** Keys only this protocol touches. */
  ghost predicate Ours(prefix: string, key: string) {
    || key == VersionKey(prefix)
    || (exists id, v :: key == VersionedKey(prefix, id, v))
    || (exists id, v :: key == LockKey(VersionedKey(prefix, id, v)))
  }

  ghost function Do(prefix: string, s: System, a: Action): System
    requires s.versions != []
  {
    match a
    case Tick(ms) => s.(now := s.now + ms)
    case Arrive(r) => s.(tasks := s.tasks + [NewTask(r)])
    case Local(i, op) =>
      if i < |s.tasks| then
        var turn := TurnOf(prefix, s, i, op);
        s.(tasks := s.tasks[i := turn.task], db := turn.db, inflight := turn.inflight)
      else s
    case Bump => s.(db := Bumped(prefix, s.db, s.now))
    case Delete(keys) => if VersionKey(prefix) in keys then s else s.(db := s.db - keys)
    case Env(key, cell) =>
      if Ours(prefix, key) then s
      else if cell.None? then s.(db := s.db - {key})
      else s.(db := s.db[key := Cell(Other, cell.value.expires)])
  }

  ghost function Step(prefix: string, s: System, a: Action): System
    requires s.versions != []
  {
    var s' := Do(prefix, s, a);
    s'.(versions := s.versions + [Version(prefix, s'.db, s'.now)])
  }

  /** A start: no request yet, no envelope anywhere, and a counter, if there is one, that does not expire. */
  ghost predicate Initial(prefix: string, s: System) {
    && s.tasks == [] && s.inflight == map[]
    && s.versions == [Version(prefix, s.db, s.now)]
    && (forall key :: key in s.db ==> !s.db[key].content.Envelope?)
    && CounterOk(prefix, s.db)
  }

  ghost predicate CounterOk(prefix: string, db: Db) {
    VersionKey(prefix) in db ==> db[VersionKey(prefix)].content.Counter? && db[VersionKey(prefix)].expires.None?
  }

  ghost function Exec(prefix: string, s: System, actions: seq<Action>): (s': System)
    requires s.versions != []
    ensures |s'.versions| == |s.versions| + |actions|
  {
    if actions == [] then s
    else Step(prefix, Exec(prefix, s, actions[..|actions| - 1]), actions[|actions| - 1])
  }
}
