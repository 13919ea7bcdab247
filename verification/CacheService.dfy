/** The same steps as the code takes them: each method is one stretch of the service or the interceptor between
    two awaits, changing the shared Redis, the in-flight maps and the request's own frame in place. Every method
    is one step of the protocol and keeps its invariants, so that any sequence of calls from the constructor on
    is a run of the protocol, and whoever reads an answer knows where its value came from. */
module CacheServices {
  import opened CacheFlight
  import opened CacheInvariant
  import opened CacheIsolation
  import opened CacheKeys
  import opened CacheProtocol
  import opened Optional
  import opened Redis

  class CacheService {
    const prefix: string
    var now: int
    var db: Db
    var tasks: seq<Task>
    var inflight: map<(nat, string), nat>
    var versions: seq<nat>

    /** A start over a Redis that holds at most a version counter. */
    constructor (prefix: string, counter: Option<nat>, now: int)
      ensures this.prefix == prefix && Valid() && Initial(prefix, Current())
      ensures Version(prefix, db, this.now) == match counter case Some(n) => n case None => 1
    {
      this.prefix, this.now := prefix, now;
      var store: Db := if counter.Some? then map[VersionKey(prefix) := Cell(Counter(counter.value), None)] else map[];
      db, tasks, inflight := store, [], map[];
      versions := [Version(prefix, store, now)];
      new;
      RunKeepsInv(prefix, Current(), []);
      RunKeepsFlight(prefix, Current(), []);
    }

    ghost predicate Valid()
      reads this
    {
      Inv(prefix, Current()) && FlightInv(Current())
    }

    ghost function Current(): System
      reads this
    {
      System(now, db, tasks, inflight, versions)
    }

    /** Every step ends by recording the counter's reading. */
    method Record(ghost before: System, ghost a: Action)
      requires Inv(prefix, before) && FlightInv(before)
      requires System(now, db, tasks, inflight, versions) == Do(prefix, before, a)
      modifies this`versions
      ensures Valid() && Current() == Step(prefix, before, a)
    {
      versions := versions + [Version(prefix, db, now)];
      StepKeepsInv(prefix, before, a);
      StepKeepsFlight(prefix, before, a);
    }

    method StartFactory(i: nat, background: bool, lease: Lease, writes: bool)
      requires versions != [] && i < |tasks|
      modifies this`tasks
      ensures tasks == old(tasks)[i := Launch(old(Current()), old(tasks)[i], background, lease, writes)]
    {
      var t := tasks[i].At(background, Running(lease, writes, |versions| - 1));
      tasks := tasks[i := t.(runs := t.runs + 1)];
    }

    /** A thread that has its result, or its error, gives the lock back first, if it took it. */
    method Complete(i: nat, background: bool, lease: Lease, out: Outcome)
      requires versions != [] && i < |tasks|
      modifies this`tasks
      ensures tasks == old(tasks)[i := Finished(old(tasks)[i], background, lease, out)]
    {
      var t := tasks[i];
      if lease.Held? {
        t := t.At(background, Releasing(lease.until, out));
      } else if background || t.request.kind.Bypass? {
        t := t.At(background, Done(out));
      } else {
        t := t.(fg := Settled(out));
      }
      tasks := tasks[i := t];
    }

    method Arrives(request: Request) returns (i: nat)
      requires Valid()
      modifies this
      ensures Valid() && Current() == Step(prefix, old(Current()), Arrive(request))
      ensures i == |old(tasks)| && i < |tasks|
    {
      i := |tasks|;
      tasks := tasks + [NewTask(request)];
      Record(old(Current()), Arrive(request));
    }

    method TimePasses(ms: nat)
      requires Valid()
      modifies this
      ensures Valid() && Current() == Step(prefix, old(Current()), Tick(ms))
    {
      now := now + ms;
      Record(old(Current()), Tick(ms));
    }

    method GetVersionedKey(i: nat)
      requires Valid() && i < |tasks|
      modifies this
      ensures Valid() && Current() == Step(prefix, old(Current()), Local(i, ReadVersion))
    {
      if tasks[i].fg.NeedVersion? && !tasks[i].request.kind.Evict? {
        var version := 1;
        var found: Option<Content> := Get(db, VersionKey(prefix), now);
        if found.Some? && found.value.Counter? { version := found.value.n; }
        var key := VersionedKey(prefix, tasks[i].request.id, version);
        tasks := tasks[i := tasks[i].(fg := Keyed, key := key, version := version, readAt := |versions| - 1)];
      }
      Record(old(Current()), Local(i, ReadVersion));
    }

    /** `resolve` up to its await: join the promise in flight, or register one and start reading. */
    method Resolve(i: nat)
      requires Valid() && i < |tasks|
      modifies this
      ensures Valid() && Current() == Step(prefix, old(Current()), Local(i, Enter))
    {
      var t := tasks[i];
      if t.fg.Keyed? {
        var slot := (t.request.instance, t.key);
        if t.request.kind.Bypass? {
          StartFactory(i, false, NoLease, true);
        } else if slot in inflight {
          tasks := tasks[i := t.(fg := Joined, leader := Some(inflight[slot]))];
        } else {
          inflight := inflight[slot := i];
          tasks := tasks[i := t.(fg := Reading)];
        }
      }
      Record(old(Current()), Local(i, Enter));
    }

    method ReadRaw(i: nat, delivered: bool)
      requires Valid() && i < |tasks|
      modifies this
      ensures Valid() && Current() == Step(prefix, old(Current()), Local(i, Read(delivered)))
    {
      if tasks[i].fg.Reading? {
        var found: Option<Sighting> := None;
        if delivered {
          var got: Option<Content> := Get(db, tasks[i].key, now);
          if got.Some? && got.value.Envelope? {
            found := Some(Sighting(got.value.stored, got.value.window, now, now));
          }
        }
        tasks := tasks[i := tasks[i].(fg := Classifying(found))];
      }
      Record(old(Current()), Local(i, Read(delivered)));
    }

    /** Serve what was found, starting a refresh behind a stale hit; on a miss go on to compute. */
    method ClassifyStored(i: nat)
      requires Valid() && i < |tasks|
      modifies this
      ensures Valid() && Current() == Step(prefix, old(Current()), Local(i, Classify))
    {
      var t := tasks[i];
      if t.fg.Classifying? {
        if t.fg.found.Some? {
          var seen := t.fg.found.value.(judgedMs := now);
          var stale := now - seen.stored.createdAt > seen.stored.ttl * 1000;
          if stale { t := t.(bg := WantLock); }
          tasks := tasks[i := t.(fg := Settled(Returned(Entry(true, stale, seen.stored.v, Some(seen)))))];
        } else if t.request.options.lock {
          tasks := tasks[i := t.(fg := WantLock)];
        } else {
          StartFactory(i, false, NoLease, true);
        }
      }
      Record(old(Current()), Local(i, Classify));
    }

    method SetLock(key: string, ttl: int, reply: Reply) returns (acquired: bool)
      modifies this`db
      ensures var free := CanSetNx(old(db), LockKey(key), ttl, now);
              && db == (if free && reply != Failed(false) then SetNx(old(db), LockKey(key), LockMark, ttl, now) else old(db))
              && (acquired <==> free && reply.Delivered?)
    {
      if ttl <= 0 || Get(db, LockKey(key), now).Some? { return false; }
      if reply != Failed(false) { db := db[LockKey(key) := Cell(LockMark, Some(now + ttl * 1000))]; }
      return reply.Delivered?;
    }

    method AcquireLock(i: nat, background: bool, reply: Reply)
      requires Valid() && i < |tasks|
      modifies this
      ensures Valid() && Current() == Step(prefix, old(Current()), Local(i, Acquire(background, reply)))
    {
      var t := tasks[i];
      if t.Pc(background).WantLock? {
        var ttl := t.request.options.lockTtl;
        var acquired := SetLock(t.key, ttl, reply);
        if acquired {
          StartFactory(i, background, Held(now + ttl * 1000), true);
        } else if background {
          tasks := tasks[i := t.(bg := Off)];
        } else {
          tasks := tasks[i := t.(fg := Waiting(RETRIES))];
        }
      }
      Record(old(Current()), Local(i, Acquire(background, reply)));
    }

    /** One round of `waitForValue`. */
    method WaitForValue(i: nat, delivered: bool)
      requires Valid() && i < |tasks|
      modifies this
      ensures Valid() && Current() == Step(prefix, old(Current()), Local(i, Poll(delivered)))
    {
      var t := tasks[i];
      if t.fg.Waiting? && t.fg.left > 0 {
        var got: Option<Content> := if delivered then Get(db, t.key, now) else None;
        if got.Some? && got.value.Envelope? {
          var stored := got.value.stored;
          if stored.v.payload.Undefined? {
            StartFactory(i, false, NoLease, false);
          } else {
            var seen := Some(Sighting(stored, got.value.window, now, now));
            tasks := tasks[i := t.(fg := Settled(Returned(Entry(false, false, stored.v, seen))))];
          }
        } else if t.fg.left == 1 {
          StartFactory(i, false, NoLease, false);
        } else {
          tasks := tasks[i := t.(fg := Waiting(t.fg.left - 1))];
        }
      }
      Record(old(Current()), Local(i, Poll(delivered)));
    }

    /** The factory's promise settles: `result` is absent when it threw. */
    method FactorySettles(i: nat, background: bool, result: Option<Payload>)
      requires Valid() && i < |tasks|
      modifies this
      ensures Valid() && Current() == Step(prefix, old(Current()), Local(i, Finish(background, result)))
    {
      var t := tasks[i];
      var pc := t.Pc(background);
      if pc.Running? {
        if result.None? {
          Complete(i, background, pc.lease, Threw);
        } else {
          var value := Value(result.value, i, pc.born);
          if pc.writes && t.request.options.shouldCache(result.value) {
            tasks := tasks[i := t.At(background, Writing(pc.lease, value))];
          } else {
            Complete(i, background, pc.lease, Returned(Entry(false, false, value, None)));
          }
        }
      }
      Record(old(Current()), Local(i, Finish(background, result)));
    }

    method StoreEnvelope(key: string, value: Value, o: Options, reply: Reply) returns (out: Outcome)
      modifies this`db
      ensures var written := Set(old(db), key, Envelope(Stored(value, now, o.ttl), o.Window()), o.Window(), now);
              && db == (if written.Some? && reply != Failed(false) then written.value else old(db))
              && out == (if written.Some? && reply.Delivered? then Returned(Entry(false, false, value, None)) else Threw)
    {
      var window := o.ttl;
      if o.staleTtl > 0 { window := window + o.staleTtl; }
      if window < 0 { return Threw; }
      if reply != Failed(false) {
        var expires := if window == 0 then None else Some(now + window * 1000);
        db := db[key := Cell(Envelope(Stored(value, now, o.ttl), window), expires)];
      }
      return if reply.Delivered? then Returned(Entry(false, false, value, None)) else Threw;
    }

    method WriteRaw(i: nat, background: bool, reply: Reply)
      requires Valid() && i < |tasks|
      modifies this
      ensures Valid() && Current() == Step(prefix, old(Current()), Local(i, Write(background, reply)))
    {
      var t := tasks[i];
      var pc := t.Pc(background);
      if pc.Writing? {
        var out := StoreEnvelope(t.key, pc.value, t.request.options, reply);
        Complete(i, background, pc.lease, out);
      }
      Record(old(Current()), Local(i, Write(background, reply)));
    }

    method ReleaseLock(i: nat, background: bool, reply: Reply)
      requires Valid() && i < |tasks|
      modifies this
      ensures Valid() && Current() == Step(prefix, old(Current()), Local(i, Release(background, reply)))
    {
      var t := tasks[i];
      var pc := t.Pc(background);
      if pc.Releasing? {
        if reply != Failed(false) { db := db - {LockKey(t.key)}; }
        Complete(i, background, NoLease, pc.out);
      }
      Record(old(Current()), Local(i, Release(background, reply)));
    }

    /** The `finally` of `resolve`: forget the promise that settled. */
    method ForgetPromise(i: nat)
      requires Valid() && i < |tasks|
      modifies this
      ensures Valid() && Current() == Step(prefix, old(Current()), Local(i, Cleanup))
    {
      var t := tasks[i];
      if t.fg.Settled? {
        inflight := inflight - {(t.request.instance, t.key)};
        tasks := tasks[i := t.(fg := Done(t.fg.out))];
      }
      Record(old(Current()), Local(i, Cleanup));
    }

    /** The interceptor's evicting path: the handler, then, if it succeeded, the evictions. */
    method HandleEviction(i: nat)
      requires Valid() && i < |tasks|
      modifies this
      ensures Valid() && Current() == Step(prefix, old(Current()), Local(i, Handle))
    {
      if tasks[i].fg.NeedVersion? && tasks[i].request.kind.Evict? {
        tasks := tasks[i := tasks[i].(fg := Handling, runs := tasks[i].runs + 1)];
      }
      Record(old(Current()), Local(i, Handle));
    }

    method HandlerSettles(i: nat, ok: bool)
      requires Valid() && i < |tasks|
      modifies this
      ensures Valid() && Current() == Step(prefix, old(Current()), Local(i, HandlerEnds(ok)))
    {
      if tasks[i].fg.Handling? {
        var pc := if ok then Evicting else Evicted(false);
        tasks := tasks[i := tasks[i].(fg := pc)];
      }
      Record(old(Current()), Local(i, HandlerEnds(ok)));
    }

    /** Failed or not, once the evictions are over the handler's result is answered. */
    method AnswerEviction(i: nat)
      requires Valid() && i < |tasks|
      modifies this
      ensures Valid() && Current() == Step(prefix, old(Current()), Local(i, EvictionEnds))
    {
      if tasks[i].fg.Evicting? {
        tasks := tasks[i := tasks[i].(fg := Evicted(true))];
      }
      Record(old(Current()), Local(i, EvictionEnds));
    }

    /** DEL of the keys that KEYS has listed for an entity's pattern. */
    method DeleteMatching(id: string, listed: set<string>)
      requires Valid() && Literal(prefix) && Literal(id)
      requires forall key :: key in listed ==> GlobMatch(EntityPattern(prefix, id), key)
      modifies this
      ensures Valid() && Current() == Step(prefix, old(Current()), Delete(listed))
      ensures db == old(db) - listed
    {
      EntityPatternReach(prefix, id, id, 0);
      db := db - listed;
      Record(old(Current()), Delete(listed));
    }

    method BumpVersion()
      requires Valid()
      modifies this
      ensures Valid() && Current() == Step(prefix, old(Current()), Bump)
    {
      var found: Option<Content> := Get(db, VersionKey(prefix), now);
      if found.None? {
        db := db[VersionKey(prefix) := Cell(Counter(1), None)];
      } else if found.value.Counter? {
        db := db[VersionKey(prefix) := Cell(Counter(found.value.n + 1), None)];
      }
      Record(old(Current()), Bump);
    }

    /** What a request is answered: its handler has run at most once, and a returned value was made by the
        factory of a request for the same entity at the same version; a joiner ran no handler. */
    method Answer(i: nat) returns (out: Option<Outcome>)
      requires Valid() && i < |tasks|
      ensures out.Some? <==> tasks[i].fg.Settled? || tasks[i].fg.Done?
      ensures out.Some? ==> out.value == tasks[i].fg.out
      ensures tasks[i].runs <= 1 && (tasks[i].leader.Some? ==> tasks[i].runs == 0)
      ensures out.Some? && out.value.Returned? ==>
                var maker := out.value.entry.value.maker;
                && maker < |tasks| && tasks[maker].Keyed()
                && tasks[maker].request.id == tasks[i].request.id && tasks[maker].version == tasks[i].version
                && (out.value.entry.hit ==> tasks[maker].request.options.shouldCache(out.value.entry.value.payload))
    {
      assert TaskOk(prefix, Current(), i) && TaskFlight(Current(), tasks[i]);
      if tasks[i].fg.Settled? || tasks[i].fg.Done? {
        out := Some(tasks[i].fg.out);
        if out.value.Returned? { SameVersion(prefix, Current(), i, out.value.entry); }
        return;
      }
      return None;
    }
  }
}
