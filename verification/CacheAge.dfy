/** Where a returned value comes from, and how old it can be. */
module CacheAge {
  import opened CacheInvariant
  import opened CacheIsolation
  import opened CacheProtocol
  import opened Redis

  /** Every value handed out was made by the factory of a request for exactly that key, started after that
      request had read the version in the key; a value taken from the cache was accepted by its own
      request's `shouldCache`. */
  lemma Provenance(prefix: string, s: System, actions: seq<Action>, i: nat, e: Entry)
    requires Initial(prefix, s)
    requires var end := Exec(prefix, s, actions); i < |end.tasks| && Returns(end.tasks[i], e)
    ensures var end := Exec(prefix, s, actions);
            && MadeFor(end, e.value, end.tasks[i].key)
            && end.tasks[e.value.maker].request.id == end.tasks[i].request.id
            && end.tasks[e.value.maker].version == end.tasks[i].version
            && (e.seen.Some? ==> Storable(end, e.value, end.tasks[i].key))
  {
    RunKeepsInv(prefix, s, actions);
    assert TaskOk(prefix, Exec(prefix, s, actions), i);
    SameVersion(prefix, Exec(prefix, s, actions), i, e);
  }

  /** Nothing rejected by `shouldCache` is ever stored, and nothing is stored under a key it was not made for. */
  lemma OnlyStorableIsStored(prefix: string, s: System, actions: seq<Action>, key: string)
    requires Initial(prefix, s)
    requires key in Exec(prefix, s, actions).db && Exec(prefix, s, actions).db[key].content.Envelope?
    ensures Storable(Exec(prefix, s, actions), Exec(prefix, s, actions).db[key].content.stored.v, key)
  {
    RunKeepsInv(prefix, s, actions);
    var end := Exec(prefix, s, actions);
    assert CellOk(end, key, end.db[key]);
  }

  /** A hit not marked stale is at most its writer's ttl old when it is classified; a hit marked stale is
      older; and a hit is at most ttl + max(staleTtl, 0) old when it is read, unless that sum is zero. */
  lemma HitAge(prefix: string, s: System, actions: seq<Action>, i: nat, e: Entry)
    requires Initial(prefix, s)
    requires var end := Exec(prefix, s, actions); i < |end.tasks| && Returns(end.tasks[i], e)
    requires e.hit
    ensures e.seen.Some? && e.seen.value.stored.v == e.value
    ensures e.value.maker < |Exec(prefix, s, actions).tasks|
    ensures var g, o := e.seen.value, Exec(prefix, s, actions).tasks[e.value.maker].request.options;
            var window := o.ttl + if o.staleTtl > 0 then o.staleTtl else 0;
            && (!e.stale <==> g.judgedMs - g.stored.createdAt <= o.ttl * 1000)
            && (window != 0 ==> g.readMs - g.stored.createdAt <= window * 1000)
  {
    RunKeepsInv(prefix, s, actions);
    assert TaskOk(prefix, Exec(prefix, s, actions), i);
  }

  /** Whether the age of what can still be read is bounded is decided by the window alone: for a successful
      write, everything read later is at most `window` seconds old if and only if the window is not zero.
      A zero window is stored without any expiry, and is served, as stale, forever. */
  lemma WindowBoundsAge(db: Db, key: string, content: Content, window: int, wrote: int)
    requires Set(db, key, content, window, wrote).Some?
    ensures var after := Set(db, key, content, window, wrote).value;
            (forall now :: now >= wrote && Get(after, key, now).Some? ==> now - wrote <= window * 1000) <==> window != 0
  {
    var after := Set(db, key, content, window, wrote).value;
    if window == 0 {
      assert Get(after, key, wrote + 1).Some?;
    }
  }
}
