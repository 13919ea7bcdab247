/** Scanning all active profiles in keyset pages. */
module Keyset {
  import opened Optional

  datatype Profile = Profile(id: int, userId: Option<nat>, deleted: bool)

  datatype Item = Item(profileId: int, userId: Option<nat>)

  datatype Batch = Batch(items: seq<Item>, nextAfterId: Option<int>)

  /** The table in primary-key order. */
  ghost predicate InIdOrder(rows: seq<Profile>) {
    forall i, j :: 0 <= i < j < |rows| ==> rows[i].id < rows[j].id
  }

  predicate Listed(p: Profile, afterId: Option<int>) {
    !p.deleted && (afterId.None? || p.id > afterId.value)
  }

  function Active(rows: seq<Profile>, afterId: Option<int>): seq<Profile> {
    if rows == [] then []
    else (if Listed(rows[0], afterId) then [rows[0]] else []) + Active(rows[1..], afterId)
  }

  /** The repository's page: the first `limit` active rows after the key. */
  function ListActive(rows: seq<Profile>, afterId: Option<int>, limit: nat): seq<Profile> {
    var all := Active(rows, afterId);
    if |all| <= limit then all else all[..limit]
  }

  predicate Included(p: Profile, excludeUserId: Option<nat>) {
    excludeUserId.None? || p.userId != excludeUserId
  }

  function ItemOf(p: Profile, excludeUserId: Option<nat>): seq<Item> {
    if Included(p, excludeUserId) then [Item(p.id, p.userId)] else []
  }

  function Items(rows: seq<Profile>, excludeUserId: Option<nat>): seq<Item> {
    if rows == [] then []
    else ItemOf(rows[0], excludeUserId) + Items(rows[1..], excludeUserId)
  }

  /** `listActiveProfileBatch`. */
  function ListBatch(rows: seq<Profile>, afterId: Option<int>, limit: nat, excludeUserId: Option<nat>): Batch {
    var page := ListActive(rows, afterId, limit);
    Batch(Items(page, excludeUserId),
          if |page| == limit && page != [] then Some(page[|page| - 1].id) else None)
  }

  /** What a caller collects by following `nextAfterId`, when page i is read from table i: rows may come, go or
      change between two reads. `done` says that the last page left no key to continue from. */
  datatype Scan = Scan(items: seq<Item>, done: bool)

  function FollowPages(tables: seq<seq<Profile>>, afterId: Option<int>, limit: nat, excludeUserId: Option<nat>): Scan
    decreases |tables|
  {
    if tables == [] then Scan([], false)
    else
      var batch := ListBatch(tables[0], afterId, limit, excludeUserId);
      if batch.nextAfterId.None? then Scan(batch.items, true)
      else
        var rest := FollowPages(tables[1..], batch.nextAfterId, limit, excludeUserId);
        Scan(batch.items + rest.items, rest.done)
  }

  /** What the scan is for: active, behind the key, and not the excluded user's. */
  predicate Wanted(p: Profile, afterId: Option<int>, excludeUserId: Option<nat>) {
    && p.deleted == false
    && (match afterId case None => true case Some(id) => id < p.id)
    && (match excludeUserId case None => true case Some(user) => p.userId != Some(user))
  }

  ghost predicate AllInIdOrder(tables: seq<seq<Profile>>) {
    forall t :: t in tables ==> InIdOrder(t)
  }

  // ------------------------------------------------------------------ pages

  lemma {:induction false} ActiveMembers(rows: seq<Profile>, afterId: Option<int>, p: Profile)
    ensures p in Active(rows, afterId) <==> p in rows && Listed(p, afterId)
  {
    if rows == [] {
    } else {
      ActiveMembers(rows[1..], afterId, p);
      assert p in rows <==> p == rows[0] || p in rows[1..];
    }
  }

  lemma {:induction false} ActiveOrdered(rows: seq<Profile>, afterId: Option<int>)
    requires InIdOrder(rows)
    ensures InIdOrder(Active(rows, afterId))
  {
    if rows == [] {
    } else {
      ActiveOrdered(rows[1..], afterId);
      var rest := Active(rows[1..], afterId);
      forall j | 0 <= j < |rest|
        ensures rows[0].id < rest[j].id
      {
        ActiveMembers(rows[1..], afterId, rest[j]);
      }
    }
  }

  lemma {:induction false} ItemsMembers(rows: seq<Profile>, excludeUserId: Option<nat>, item: Item)
    ensures item in Items(rows, excludeUserId) <==>
            exists p :: p in rows && Included(p, excludeUserId) && item == Item(p.id, p.userId)
  {
    if rows == [] {
    } else {
      ItemsMembers(rows[1..], excludeUserId, item);
      assert forall p :: p in rows <==> p == rows[0] || p in rows[1..];
    }
  }

  ghost predicate Increasing(items: seq<Item>, afterId: Option<int>) {
    && (forall i, j :: 0 <= i < j < |items| ==> items[i].profileId < items[j].profileId)
    && (afterId.Some? ==> forall i :: 0 <= i < |items| ==> afterId.value < items[i].profileId)
  }

  lemma {:induction false} ItemsIncreasing(rows: seq<Profile>, afterId: Option<int>, excludeUserId: Option<nat>)
    requires InIdOrder(rows)
    requires afterId.Some? ==> forall p :: p in rows ==> afterId.value < p.id
    ensures Increasing(Items(rows, excludeUserId), afterId)
  {
    if rows == [] {
    } else {
      assert rows[0] in rows;
      var rest := Items(rows[1..], excludeUserId);
      forall p | p in rows[1..]
        ensures rows[0].id < p.id
      {
        var j :| 0 <= j < |rows| - 1 && rows[1..][j] == p;
        assert p == rows[j + 1];
      }
      ItemsIncreasing(rows[1..], Some(rows[0].id), excludeUserId);
    }
  }

  lemma PageFacts(rows: seq<Profile>, afterId: Option<int>, limit: nat)
    requires InIdOrder(rows)
    ensures var page := ListActive(rows, afterId, limit);
            && InIdOrder(page)
            && (forall p :: p in page ==> p in rows && Listed(p, afterId))
            && (page != [] ==> forall p :: p in page ==> p.id <= page[|page| - 1].id)
  {
    var page := ListActive(rows, afterId, limit);
    ActiveOrdered(rows, afterId);
    forall p | p in page
      ensures p in rows && Listed(p, afterId) && p.id <= page[|page| - 1].id
    {
      ActiveMembers(rows, afterId, p);
      var j :| 0 <= j < |page| && page[j] == p;
    }
  }

  /** A listed row is on the page, or behind the key the page hands out. */
  lemma OnPageOrBehind(rows: seq<Profile>, afterId: Option<int>, limit: nat, p: Profile)
    requires InIdOrder(rows) && limit >= 1 && p in rows && Listed(p, afterId)
    ensures var page := ListActive(rows, afterId, limit);
            p in page || (|page| == limit && page[limit - 1].id < p.id)
  {
    var all := Active(rows, afterId);
    ActiveMembers(rows, afterId, p);
    ActiveOrdered(rows, afterId);
    var j :| 0 <= j < |all| && all[j] == p;
    if j < limit && limit < |all| { assert all[..limit][j] == p; }
  }

  lemma {:induction false} ItemsAreFew(rows: seq<Profile>, excludeUserId: Option<nat>)
    ensures |Items(rows, excludeUserId)| <= |rows|
    ensures excludeUserId.None? ==> |Items(rows, excludeUserId)| == |rows|
  {
    if rows == [] {
    } else {
      ItemsAreFew(rows[1..], excludeUserId);
    }
  }

  /** A batch never carries more than `limit` profiles; with nobody excluded it hands out a key exactly if it
      is full. */
  lemma BatchIsBounded(rows: seq<Profile>, afterId: Option<int>, limit: nat, excludeUserId: Option<nat>)
    ensures |ListBatch(rows, afterId, limit, excludeUserId).items| <= limit
    ensures limit >= 1 ==> (ListBatch(rows, afterId, limit, None).nextAfterId.Some?
                            <==> |ListBatch(rows, afterId, limit, None).items| == limit)
  {
    ItemsAreFew(ListActive(rows, afterId, limit), excludeUserId);
    ItemsAreFew(ListActive(rows, afterId, limit), None);
  }

  // ------------------------------------------------------------------ while the table changes

  lemma {:induction false} Chain(a: seq<Item>, b: seq<Item>, afterId: Option<int>, key: int)
    requires Increasing(a, afterId) && Increasing(b, Some(key))
    requires forall i :: 0 <= i < |a| ==> a[i].profileId <= key
    requires afterId.Some? ==> afterId.value < key
    ensures Increasing(a + b, afterId)
  {
    forall i | 0 <= i < |b|
      ensures key < b[i].profileId
    {
      assert Some(key).value < b[i].profileId;
    }
  }

  /** Whatever is written between the pages, ids only go up: no profile is yielded twice. */
  lemma {:induction false} NothingTwice(tables: seq<seq<Profile>>, afterId: Option<int>, limit: nat,
      excludeUserId: Option<nat>)
    requires AllInIdOrder(tables)
    ensures Increasing(FollowPages(tables, afterId, limit, excludeUserId).items, afterId)
    decreases |tables|
  {
    if tables == [] {
    } else {
      var rows := tables[0];
      var page, batch := ListActive(rows, afterId, limit), ListBatch(rows, afterId, limit, excludeUserId);
      PageFacts(rows, afterId, limit);
      ItemsIncreasing(page, afterId, excludeUserId);
      if batch.nextAfterId.Some? {
        var key := batch.nextAfterId.value;
        assert page[|page| - 1] in page;
        forall i | 0 <= i < |batch.items|
          ensures batch.items[i].profileId <= key
        {
          ItemsMembers(page, excludeUserId, batch.items[i]);
        }
        NothingTwice(tables[1..], batch.nextAfterId, limit, excludeUserId);
        Chain(batch.items, FollowPages(tables[1..], batch.nextAfterId, limit, excludeUserId).items, afterId, key);
      }
    }
  }

  /** A profile that stays in the table, active and included, while the scan runs to its end is yielded. */
  lemma {:induction false} NothingMissed(tables: seq<seq<Profile>>, afterId: Option<int>, limit: nat,
      excludeUserId: Option<nat>, p: Profile)
    requires AllInIdOrder(tables) && limit >= 1
    requires FollowPages(tables, afterId, limit, excludeUserId).done
    requires Wanted(p, afterId, excludeUserId) && forall t :: t in tables ==> p in t
    ensures Item(p.id, p.userId) in FollowPages(tables, afterId, limit, excludeUserId).items
    decreases |tables|
  {
    var rows := tables[0];
    var page, batch := ListActive(rows, afterId, limit), ListBatch(rows, afterId, limit, excludeUserId);
    OnPageOrBehind(rows, afterId, limit, p);
    if p in page {
      ItemsMembers(page, excludeUserId, Item(p.id, p.userId));
    } else {
      NothingMissed(tables[1..], batch.nextAfterId, limit, excludeUserId, p);
    }
  }

  /** Everything yielded was an active, included row of a table that was read. */
  lemma {:induction false} NothingInvented(tables: seq<seq<Profile>>, afterId: Option<int>, limit: nat,
      excludeUserId: Option<nat>, item: Item)
    requires AllInIdOrder(tables)
    requires item in FollowPages(tables, afterId, limit, excludeUserId).items
    ensures exists t, p :: t in tables && p in t && Wanted(p, afterId, excludeUserId) && item == Item(p.id, p.userId)
    decreases |tables|
  {
    var rows := tables[0];
    var page, batch := ListActive(rows, afterId, limit), ListBatch(rows, afterId, limit, excludeUserId);
    PageFacts(rows, afterId, limit);
    if item in batch.items {
      ItemsMembers(page, excludeUserId, item);
    } else {
      assert page[|page| - 1] in page;
      NothingInvented(tables[1..], batch.nextAfterId, limit, excludeUserId, item);
    }
  }

  // ------------------------------------------------------------------ over one table

  lemma {:induction false} ActiveAfterHead(rows: seq<Profile>, afterId: Option<int>, id: int)
    requires forall p :: p in rows ==> id < p.id
    requires afterId.None? || afterId.value <= id
    ensures Active(rows, Some(id)) == Active(rows, afterId)
  {
    if rows == [] {
    } else {
      assert rows[0] in rows;
      ActiveAfterHead(rows[1..], afterId, id);
    }
  }

  lemma HeadIsLeast(rows: seq<Profile>, p: Profile)
    requires InIdOrder(rows) && rows != [] && p in rows[1..]
    ensures rows[0].id < p.id
  {
    var j :| 0 <= j < |rows| - 1 && rows[1..][j] == p;
    assert p == rows[j + 1];
  }

  /** Continuing after the k-th active row leaves exactly the rows behind it. */
  lemma {:induction false} ActiveAfter(rows: seq<Profile>, afterId: Option<int>, k: nat)
    requires InIdOrder(rows) && k < |Active(rows, afterId)|
    ensures Active(rows, Some(Active(rows, afterId)[k].id)) == Active(rows, afterId)[k + 1..]
  {
    var rest := Active(rows[1..], afterId);
    if !Listed(rows[0], afterId) {
      ActiveAfter(rows[1..], afterId, k);
      ActiveMembers(rows[1..], afterId, rest[k]);
      HeadIsLeast(rows, rest[k]);
    } else if k > 0 {
      ActiveAfter(rows[1..], afterId, k - 1);
      ActiveMembers(rows[1..], afterId, rest[k - 1]);
      HeadIsLeast(rows, rest[k - 1]);
    } else {
      forall p | p in rows[1..]
        ensures rows[0].id < p.id
      {
        HeadIsLeast(rows, p);
      }
      ActiveAfterHead(rows[1..], afterId, rows[0].id);
    }
  }

  lemma {:induction false} ItemsConcat(a: seq<Profile>, b: seq<Profile>, excludeUserId: Option<nat>)
    ensures Items(a + b, excludeUserId) == Items(a, excludeUserId) + Items(b, excludeUserId)
  {
    if a == [] {
      assert a + b == b;
    } else {
      assert (a + b)[1..] == a[1..] + b;
      ItemsConcat(a[1..], b, excludeUserId);
    }
  }

  /** Over a table nobody writes to, the scan ends within one page more than there are active rows and
      yields exactly the active, included rows in id order, however many pages are filtered away. */
  lemma {:induction false} FixedTable(tables: seq<seq<Profile>>, rows: seq<Profile>, afterId: Option<int>, limit: nat,
      excludeUserId: Option<nat>)
    requires InIdOrder(rows) && limit >= 1
    requires (forall t :: t in tables ==> t == rows) && |tables| > |Active(rows, afterId)|
    ensures FollowPages(tables, afterId, limit, excludeUserId) == Scan(Items(Active(rows, afterId), excludeUserId), true)
    decreases |tables|
  {
    var all, page := Active(rows, afterId), ListActive(rows, afterId, limit);
    assert tables[0] in tables;
    if |page| == limit {
      ActiveAfter(rows, afterId, limit - 1);
      assert all == page + all[limit..];
      ItemsConcat(page, all[limit..], excludeUserId);
      assert page[limit - 1] == all[limit - 1];
      forall t | t in tables[1..]
        ensures t == rows
      {
        assert t in tables;
      }
      FixedTable(tables[1..], rows, Some(page[limit - 1].id), limit, excludeUserId);
    }
  }

  lemma {:induction false} ActiveAreFew(rows: seq<Profile>, afterId: Option<int>)
    ensures |Active(rows, afterId)| <= |rows|
  {
    if rows == [] {
    } else {
      ActiveAreFew(rows[1..], afterId);
    }
  }

  /** Over a table nobody writes to, a scan yields a profile exactly if it is active and not the excluded user's,
      and each only once, in id order. */
  lemma FixedTableYields(tables: seq<seq<Profile>>, rows: seq<Profile>, limit: nat, excludeUserId: Option<nat>, item: Item)
    requires InIdOrder(rows) && limit >= 1 && (forall t :: t in tables ==> t == rows) && |tables| > |rows|
    ensures var scan := FollowPages(tables, None, limit, excludeUserId);
            && scan.done && Increasing(scan.items, None)
            && (item in scan.items <==> exists p :: p in rows && Wanted(p, None, excludeUserId) && item == Item(p.id, p.userId))
  {
    ActiveAreFew(rows, None);
    FixedTable(tables, rows, None, limit, excludeUserId);
    NothingTwice(tables, None, limit, excludeUserId);
    ItemsMembers(Active(rows, None), excludeUserId, item);
    forall p
      ensures p in Active(rows, None) <==> p in rows && Listed(p, None)
    {
      ActiveMembers(rows, None, p);
    }
  }

  /** A page size of zero is the only one that loses rows: the scan ends at once with nothing. */
  lemma CompleteIff(tables: seq<seq<Profile>>, rows: seq<Profile>, limit: nat, excludeUserId: Option<nat>)
    requires InIdOrder(rows)
    requires (forall t :: t in tables ==> t == rows) && |tables| > |Active(rows, None)|
    ensures FollowPages(tables, None, limit, excludeUserId) == Scan(Items(Active(rows, None), excludeUserId), true)
            <==> limit >= 1 || Items(Active(rows, None), excludeUserId) == []
  {
    if limit >= 1 { FixedTable(tables, rows, None, limit, excludeUserId); }
  }
}
