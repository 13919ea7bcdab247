/** The part of Redis the model relies on: keys with an optional expiry, on Redis's own clock. */
module Redis {
  import opened Optional

  /** A key is gone once the clock passes `expires`. */
  datatype Cell<+C> = Cell(content: C, expires: Option<int>)

  type Store<+C> = map<string, Cell<C>>

  predicate Alive<C>(cell: Cell<C>, now: int) {
    cell.expires.None? || now <= cell.expires.value
  }

  function Get<C>(db: Store<C>, key: string, now: int): Option<C> {
    if key in db && Alive(db[key], now) then Some(db[key].content) else None
  }

  /** `set` with a TTL in seconds. A TTL of zero means no expiry at all; Redis rejects a negative one. */
  function Set<C>(db: Store<C>, key: string, content: C, ttl: int, now: int): Option<Store<C>> {
    if ttl < 0 then None
    else Some(db[key := Cell(content, if ttl == 0 then None else Some(now + ttl * 1000))])
  }

  /** `setNX`: takes the key only if nothing lives under it; Redis rejects a TTL below one second. */
  predicate CanSetNx<C>(db: Store<C>, key: string, ttl: int, now: int) {
    ttl > 0 && Get(db, key, now).None?
  }

  function SetNx<C>(db: Store<C>, key: string, content: C, ttl: int, now: int): Store<C> {
    db[key := Cell(content, Some(now + ttl * 1000))]
  }
}
