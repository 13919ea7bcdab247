/** The session table, the outbox log and the use cases that change them: issuing (login, registration,
    rotation), refreshing, logging out and erasure. Each use case is one atomic step. */
module Sessions {
  import opened FiniteSets
  import opened Optional

  type UserId = nat
  type DeviceId = nat
  type Jti = nat

  /** A row is unique per user and device; its session id is the jti of the tokens issued last. */
  datatype Row = Row(jti: Jti, revoked: bool, expiresAt: int)

  type Slot = (UserId, DeviceId)
  type Table = map<Slot, Row>

  datatype Event =
    | SessionCreated(user: UserId, device: DeviceId, jti: Jti)
    | SessionRevoked(user: UserId, jti: Jti)
    | ErasureRequested(subject: Option<UserId>)

  /** `issued`: every session id ever generated; `inactive`: users that are suspended or deleted. */
  datatype Auth = Auth(rows: Table, issued: set<Jti>, log: seq<Event>, blacklist: map<Jti, int>, inactive: set<UserId>)

  // ------------------------------------------------------------------ repository operations

  function Revoke(r: Row): Row { r.(revoked := true) }

  function RevokeJti(rows: Table, jti: Jti): Table {
    map k | k in rows :: if rows[k].jti == jti then Revoke(rows[k]) else rows[k]
  }

  function RevokeUser(rows: Table, user: UserId): Table {
    map k | k in rows :: if k.0 == user then Revoke(rows[k]) else rows[k]
  }

  /** `findByJti`. */
  ghost function FindJti(rows: Table, jti: Jti): (found: Option<Slot>)
    ensures found.Some? ==> found.value in rows && rows[found.value].jti == jti
    ensures found.None? ==> forall k :: k in rows ==> rows[k].jti != jti
  {
    if k :| k in rows && rows[k].jti == jti then Some(k) else None
  }

  /** Session ids identify rows, and only generated ids appear. */
  ghost predicate Sound(s: Auth) {
    && (forall k :: k in s.rows ==> s.rows[k].jti in s.issued)
    && (forall k, l :: k in s.rows && l in s.rows && s.rows[k].jti == s.rows[l].jti ==> k == l)
  }

  // ------------------------------------------------------------------ use cases, on values

  ghost function Issued(s: Auth, user: UserId, device: DeviceId, jti: Jti, expiresAt: int): Auth {
    s.(rows := s.rows[(user, device) := Row(jti, false, expiresAt)],
       issued := s.issued + {jti},
       log := s.log + [SessionCreated(user, device, jti)])
  }

  /** What the refresh guard and use case demand: a known, unrevoked, unexpired session of an active user. */
  ghost predicate Refreshable(s: Auth, jti: Jti, now: int) {
    var k := FindJti(s.rows, jti);
    k.Some? && !s.rows[k.value].revoked && now <= s.rows[k.value].expiresAt && k.value.0 !in s.inactive
  }

  ghost function Refreshed(s: Auth, jti: Jti, device: DeviceId, minted: Jti, now: int, ttl: nat): Auth {
    if Refreshable(s, jti, now) then
      var user := FindJti(s.rows, jti).value.0;
      Issued(s.(rows := RevokeJti(s.rows, jti), log := s.log + [SessionRevoked(user, jti)]),
             user, device, minted, now + ttl * 1000)
    else s
  }

  ghost function LoggedOut(s: Auth, user: UserId, jti: Jti, tokenExp: Option<int>, now: int): Auth {
    var left := if tokenExp.Some? then tokenExp.value - now / 1000 else 0;
    s.(rows := RevokeJti(s.rows, jti),
       blacklist := if left > 0 then s.blacklist[jti := now + left * 1000] else s.blacklist,
       log := s.log + [SessionRevoked(user, jti)])
  }

  ghost function Erased(s: Auth, subject: Option<UserId>): Auth {
    s.(rows := if subject.Some? then RevokeUser(s.rows, subject.value) else s.rows,
       log := s.log + [ErasureRequested(subject)])
  }

  // ------------------------------------------------------------------ use cases, in place

  class AuthService {
    var rows: Table
    var blacklist: map<Jti, int>
    var inactive: set<UserId>
    ghost var issued: set<Jti>
    var log: seq<Event>
    const refreshTtl: nat

    constructor (refreshTtl: nat)
      ensures State() == Auth(map[], {}, [], map[], {}) && this.refreshTtl == refreshTtl
    {
      this.refreshTtl := refreshTtl;
      rows, blacklist, inactive, issued, log := map[], map[], {}, {}, [];
    }

    ghost function State(): Auth
      reads this
    {
      Auth(rows, issued, log, blacklist, inactive)
    }

    ghost predicate Valid()
      reads this
    {
      Sound(State())
    }

    /** Session minting: one row per device, replaced or created, then the created fact. */
    method Issue(user: UserId, device: DeviceId, jti: Jti, now: int)
      requires Valid() && jti !in issued
      modifies this
      ensures Valid()
      ensures State() == Issued(old(State()), user, device, jti, now + refreshTtl * 1000)
    {
      var expiresAt := now + refreshTtl * 1000;
      if (user, device) in rows {
        var existing := rows[(user, device)];
        rows := rows[(user, device) := existing.(jti := jti, expiresAt := expiresAt, revoked := false)];
      } else {
        rows := rows[(user, device) := Row(jti, false, expiresAt)];
      }
      issued := issued + {jti};
      log := log + [SessionCreated(user, device, jti)];
    }

    /** Token rotation behind the refresh guard: revoke, publish, issue. */
    method Refresh(jti: Jti, device: DeviceId, minted: Jti, now: int) returns (rotated: bool)
      requires Valid() && minted !in issued
      modifies this
      ensures Valid()
      ensures rotated <==> Refreshable(old(State()), jti, now)
      ensures State() == Refreshed(old(State()), jti, device, minted, now, refreshTtl)
    {
      if k :| k in rows && rows[k].jti == jti {
        if rows[k].revoked || rows[k].expiresAt < now || k.0 in inactive {
          return false;
        }
        rows := RevokeJti(rows, jti);
        log := log + [SessionRevoked(k.0, jti)];
        Issue(k.0, device, minted, now);
        return true;
      }
      return false;
    }

    /** Revoke the session, blacklist its access token for the time it has left, publish. */
    method Logout(user: UserId, jti: Jti, tokenExp: Option<int>, now: int)
      requires Valid()
      modifies this
      ensures Valid()
      ensures State() == LoggedOut(old(State()), user, jti, tokenExp, now)
    {
      rows := RevokeJti(rows, jti);
      var left := if tokenExp.Some? then tokenExp.value - now / 1000 else 0;
      if left > 0 {
        blacklist := blacklist[jti := now + left * 1000];
      }
      log := log + [SessionRevoked(user, jti)];
    }

    /** The erasure request and its handler: a subject without a user has no sessions. */
    method Erase(subject: Option<UserId>)
      requires Valid()
      modifies this
      ensures Valid()
      ensures State() == Erased(old(State()), subject)
    {
      log := log + [ErasureRequested(subject)];
      if subject.None? { return; }
      rows := RevokeUser(rows, subject.value);
    }
  }

  // ------------------------------------------------------------------ runs

  datatype Action =
    | Login(user: UserId, device: DeviceId, minted: Jti)
    | Rotate(jti: Jti, device: DeviceId, minted: Jti)
    | SignOut(who: UserId, session: Jti, tokenExp: Option<int>)
    | Erasure(subject: Option<UserId>)
    | Suspend(users: set<UserId>)

  datatype Timed = At(now: int, action: Action)

  ghost function Step(s: Auth, t: Timed, ttl: nat): Auth {
    match t.action
    case Login(user, device, minted) => Issued(s, user, device, minted, t.now + ttl * 1000)
    case Rotate(jti, device, minted) => Refreshed(s, jti, device, minted, t.now, ttl)
    case SignOut(who, session, tokenExp) => LoggedOut(s, who, session, tokenExp, t.now)
    case Erasure(subject) => Erased(s, subject)
    case Suspend(users) => s.(inactive := users)
  }

  /** Generated ids are new. */
  ghost predicate FreshId(s: Auth, a: Action) {
    match a
    case Login(_, _, minted) => minted !in s.issued
    case Rotate(_, _, minted) => minted !in s.issued
    case _ => true
  }

  ghost predicate FreshRun(s: Auth, run: seq<Timed>, ttl: nat)
    decreases |run|
  {
    run == [] || (FreshId(s, run[0].action) && FreshRun(Step(s, run[0], ttl), run[1..], ttl))
  }

  ghost function Exec(s: Auth, run: seq<Timed>, ttl: nat): Auth
    decreases |run|
  {
    if run == [] then s else Exec(Step(s, run[0], ttl), run[1..], ttl)
  }

  lemma StepKeepsSound(s: Auth, t: Timed, ttl: nat)
    requires Sound(s) && FreshId(s, t.action)
    ensures Sound(Step(s, t, ttl))
    ensures s.issued <= Step(s, t, ttl).issued
  {
  }

  // ------------------------------------------------------------------ the log replays to the table

  /** What a subscriber knows from the events alone. */
  function Apply(known: map<Slot, Jti>, e: Event): map<Slot, Jti> {
    match e
    case SessionCreated(user, device, jti) => known[(user, device) := jti]
    case SessionRevoked(_, jti) => map k | k in known && known[k] != jti :: known[k]
    case ErasureRequested(subject) =>
      if subject.None? then known else map k | k in known && k.0 != subject.value :: known[k]
  }

  function Replay(log: seq<Event>): map<Slot, Jti> {
    if log == [] then map[] else Apply(Replay(log[..|log| - 1]), log[|log| - 1])
  }

  function Unrevoked(rows: Table): map<Slot, Jti> {
    map k | k in rows && !rows[k].revoked :: rows[k].jti
  }

  lemma ReplayAppend(log: seq<Event>, e: Event)
    ensures Replay(log + [e]) == Apply(Replay(log), e)
  {
    assert (log + [e])[..|log|] == log;
  }

  lemma RevocationReplays(rows: Table, user: UserId, jti: Jti)
    ensures Unrevoked(RevokeJti(rows, jti)) == Apply(Unrevoked(rows), SessionRevoked(user, jti))
  {
  }

  lemma CreationReplays(rows: Table, user: UserId, device: DeviceId, jti: Jti, expiresAt: int)
    ensures Unrevoked(rows[(user, device) := Row(jti, false, expiresAt)])
            == Apply(Unrevoked(rows), SessionCreated(user, device, jti))
  {
  }

  lemma RotationReplays(s: Auth, jti: Jti, device: DeviceId, minted: Jti, now: int, ttl: nat)
    requires Refreshable(s, jti, now) && Replay(s.log) == Unrevoked(s.rows)
    ensures var s' := Refreshed(s, jti, device, minted, now, ttl); Replay(s'.log) == Unrevoked(s'.rows)
  {
    var user := FindJti(s.rows, jti).value.0;
    ReplayAppend(s.log, SessionRevoked(user, jti));
    RevocationReplays(s.rows, user, jti);
    ReplayAppend(s.log + [SessionRevoked(user, jti)], SessionCreated(user, device, minted));
    CreationReplays(RevokeJti(s.rows, jti), user, device, minted, now + ttl * 1000);
  }

  lemma ErasureReplays(rows: Table, subject: Option<UserId>)
    ensures Unrevoked(if subject.Some? then RevokeUser(rows, subject.value) else rows)
            == Apply(Unrevoked(rows), ErasureRequested(subject))
  {
  }

  lemma StepReplays(s: Auth, t: Timed, ttl: nat)
    requires Replay(s.log) == Unrevoked(s.rows)
    ensures Replay(Step(s, t, ttl).log) == Unrevoked(Step(s, t, ttl).rows)
  {
    match t.action
    case Login(user, device, minted) =>
      ReplayAppend(s.log, SessionCreated(user, device, minted));
      CreationReplays(s.rows, user, device, minted, t.now + ttl * 1000);
    case Rotate(jti, device, minted) =>
      if Refreshable(s, jti, t.now) { RotationReplays(s, jti, device, minted, t.now, ttl); }
    case SignOut(who, session, tokenExp) =>
      ReplayAppend(s.log, SessionRevoked(who, session));
      RevocationReplays(s.rows, who, session);
    case Erasure(subject) =>
      ReplayAppend(s.log, ErasureRequested(subject));
      ErasureReplays(s.rows, subject);
    case Suspend(_) =>
  }

  /** Folding the events of any run gives exactly the unrevoked rows, although a session overwritten on
      its device is never reported as revoked. */
  lemma {:induction false} LogReplaysToTable(s: Auth, run: seq<Timed>, ttl: nat)
    requires Replay(s.log) == Unrevoked(s.rows)
    ensures Replay(Exec(s, run, ttl).log) == Unrevoked(Exec(s, run, ttl).rows)
    decreases |run|
  {
    if run == [] {
    } else {
      StepReplays(s, run[0], ttl);
      LogReplaysToTable(Step(s, run[0], ttl), run[1..], ttl);
    }
  }

  // ------------------------------------------------------------------ single use

  ghost predicate Active(s: Auth, jti: Jti) {
    exists k :: k in s.rows && s.rows[k].jti == jti && !s.rows[k].revoked
  }

  lemma RefreshableIsActive(s: Auth, jti: Jti, now: int)
    ensures Refreshable(s, jti, now) ==> Active(s, jti)
    ensures Sound(s) && Active(s, jti) ==> FindJti(s.rows, jti).Some? && !s.rows[FindJti(s.rows, jti).value].revoked
  {
    if Refreshable(s, jti, now) { assert FindJti(s.rows, jti).value in s.rows; }
  }

  /** A session id that is not active is never active again. */
  lemma {:induction false} EndedForGood(s: Auth, run: seq<Timed>, ttl: nat, jti: Jti)
    requires Sound(s) && FreshRun(s, run, ttl) && jti in s.issued && !Active(s, jti)
    ensures !Active(Exec(s, run, ttl), jti)
    decreases |run|
  {
    if run == [] {
    } else {
      StepKeepsSound(s, run[0], ttl);
      EndedStays(s, run[0], ttl, jti);
      EndedForGood(Step(s, run[0], ttl), run[1..], ttl, jti);
    }
  }

  lemma EndedStays(s: Auth, t: Timed, ttl: nat, jti: Jti)
    requires Sound(s) && FreshId(s, t.action) && jti in s.issued && !Active(s, jti)
    ensures !Active(Step(s, t, ttl), jti)
  {
    var s' := Step(s, t, ttl);
    forall k | k in s'.rows && s'.rows[k].jti == jti
      ensures s'.rows[k].revoked
    {
    }
  }

  /** Rotation, sign-out, erasure and a new login on the same device each end the session they replace. */
  lemma EndsSession(s: Auth, t: Timed, ttl: nat, k: Slot)
    requires Sound(s) && FreshId(s, t.action) && k in s.rows
    requires match t.action
             case Login(user, device, _) => k == (user, device)
             case Rotate(jti, _, _) => jti == s.rows[k].jti && Refreshable(s, jti, t.now)
             case SignOut(_, session, _) => session == s.rows[k].jti
             case Erasure(subject) => subject == Some(k.0)
             case Suspend(_) => s.rows[k].revoked
    ensures !Active(Step(s, t, ttl), s.rows[k].jti)
  {
    var s', jti := Step(s, t, ttl), s.rows[k].jti;
    forall l | l in s'.rows && s'.rows[l].jti == jti
      ensures s'.rows[l].revoked
    {
      assert l in s.rows && s.rows[l].jti == jti;
    }
  }

  /** A refresh token works once: after a rotation, no refresh with it succeeds in any later state. */
  lemma SingleUse(s: Auth, now: int, jti: Jti, device: DeviceId, minted: Jti, run: seq<Timed>, ttl: nat, later: int)
    requires Sound(s) && minted !in s.issued && Refreshable(s, jti, now)
    requires FreshRun(Refreshed(s, jti, device, minted, now, ttl), run, ttl)
    ensures !Refreshable(Exec(Refreshed(s, jti, device, minted, now, ttl), run, ttl), jti, later)
  {
    var t := At(now, Rotate(jti, device, minted));
    StepKeepsSound(s, t, ttl);
    EndsSession(s, t, ttl, FindJti(s.rows, jti).value);
    EndedForGood(Step(s, t, ttl), run, ttl, jti);
    RefreshableIsActive(Exec(Step(s, t, ttl), run, ttl), jti, later);
  }

  // ------------------------------------------------------------------ who may refresh, and until when

  /** Who is suspended after a run: whoever the last suspension names. */
  function LastSuspended(run: seq<Timed>, before: set<UserId>): set<UserId>
    decreases |run|
  {
    if run == [] then before else LastSuspended(run[1..], if run[0].action.Suspend? then run[0].action.users else before)
  }

  /** The action neither rotates nor signs out the session, nor erases its user, nor issues one in its place. */
  ghost predicate Spares(s: Auth, a: Action, user: UserId, device: DeviceId, session: Jti) {
    match a
    case Login(u, d, _) => u != user || d != device
    case Rotate(jti, d, _) => jti != session && (d == device ==> forall k :: k in s.rows && s.rows[k].jti == jti ==> k.0 != user)
    case SignOut(_, jti, _) => jti != session
    case Erasure(subject) => subject != Some(user)
    case Suspend(_) => true
  }

  ghost predicate SparingRun(s: Auth, run: seq<Timed>, ttl: nat, user: UserId, device: DeviceId, session: Jti)
    decreases |run|
  {
    run == [] || (&& FreshId(s, run[0].action) && Spares(s, run[0].action, user, device, session)
                  && SparingRun(Step(s, run[0], ttl), run[1..], ttl, user, device, session))
  }

  lemma {:induction false} SparedRowStays(s: Auth, run: seq<Timed>, ttl: nat, user: UserId, device: DeviceId, row: Row)
    requires Sound(s) && (user, device) in s.rows && s.rows[(user, device)] == row
    requires SparingRun(s, run, ttl, user, device, row.jti)
    ensures var end := Exec(s, run, ttl);
            && Sound(end) && (user, device) in end.rows && end.rows[(user, device)] == row
            && end.inactive == LastSuspended(run, s.inactive)
    decreases |run|
  {
    if run == [] {
    } else {
      StepKeepsSound(s, run[0], ttl);
      SparedStep(s, run[0], ttl, user, device, row);
      SparedRowStays(Step(s, run[0], ttl), run[1..], ttl, user, device, row);
    }
  }

  lemma SparedStep(s: Auth, t: Timed, ttl: nat, user: UserId, device: DeviceId, row: Row)
    requires Sound(s) && (user, device) in s.rows && s.rows[(user, device)] == row && Spares(s, t.action, user, device, row.jti)
    ensures var s' := Step(s, t, ttl);
            && (user, device) in s'.rows && s'.rows[(user, device)] == row
            && s'.inactive == if t.action.Suspend? then t.action.users else s.inactive
  {
  }

  /** An unrevoked session's token rotates exactly until its expiry, and only for a user that is not suspended; the
      new session is the same user's, on the device of the request, with a full lifetime. */
  lemma RotatesIff(s: Auth, user: UserId, device: DeviceId, row: Row, d: DeviceId, next: Jti, now: int, ttl: nat)
    requires Sound(s) && (user, device) in s.rows && s.rows[(user, device)] == row && !row.revoked && next !in s.issued
    ensures var s' := Step(s, At(now, Rotate(row.jti, d, next)), ttl);
            && (Active(s', next) <==> now <= row.expiresAt && user !in s.inactive)
            && (Active(s', next) ==> (user, d) in s'.rows && s'.rows[(user, d)] == Row(next, false, now + ttl * 1000))
  {
    var s' := Step(s, At(now, Rotate(row.jti, d, next)), ttl);
    assert FindJti(s.rows, row.jti) == Some((user, device));
    if now <= row.expiresAt && user !in s.inactive { assert s'.rows[(user, d)].jti == next && !s'.rows[(user, d)].revoked; }
  }

  /** After a login, through any run that spares the session, its token rotates exactly while the refresh lifetime
      lasts and the user is not suspended. */
  lemma LoginRefreshesIff(s: Auth, user: UserId, device: DeviceId, minted: Jti, t: int, run: seq<Timed>, ttl: nat,
                          d: DeviceId, next: Jti, now: int)
    requires Sound(s) && minted !in s.issued
    requires SparingRun(Step(s, At(t, Login(user, device, minted)), ttl), run, ttl, user, device, minted)
    requires next !in Exec(Step(s, At(t, Login(user, device, minted)), ttl), run, ttl).issued
    ensures var end := Exec(Step(s, At(t, Login(user, device, minted)), ttl), run, ttl);
            Active(Step(end, At(now, Rotate(minted, d, next)), ttl), next)
            <==> now <= t + ttl * 1000 && user !in LastSuspended(run, s.inactive)
  {
    var s1, row := Step(s, At(t, Login(user, device, minted)), ttl), Row(minted, false, t + ttl * 1000);
    StepKeepsSound(s, At(t, Login(user, device, minted)), ttl);
    SparedRowStays(s1, run, ttl, user, device, row);
    RotatesIff(Exec(s1, run, ttl), user, device, row, d, next, now, ttl);
  }

  /** The same of a session begun by a rotation, for the user of the session it replaced. */
  lemma RotationRefreshesIff(s: Auth, k: Slot, device: DeviceId, minted: Jti, t: int, run: seq<Timed>, ttl: nat,
                             d: DeviceId, next: Jti, now: int)
    requires Sound(s) && minted !in s.issued && k in s.rows && Active(Step(s, At(t, Rotate(s.rows[k].jti, device, minted)), ttl), minted)
    requires SparingRun(Step(s, At(t, Rotate(s.rows[k].jti, device, minted)), ttl), run, ttl, k.0, device, minted)
    requires next !in Exec(Step(s, At(t, Rotate(s.rows[k].jti, device, minted)), ttl), run, ttl).issued
    ensures var end := Exec(Step(s, At(t, Rotate(s.rows[k].jti, device, minted)), ttl), run, ttl);
            Active(Step(end, At(now, Rotate(minted, d, next)), ttl), next)
            <==> now <= t + ttl * 1000 && k.0 !in LastSuspended(run, s.inactive)
  {
    var a, row := At(t, Rotate(s.rows[k].jti, device, minted)), Row(minted, false, t + ttl * 1000);
    var s1 := Step(s, a, ttl);
    StepKeepsSound(s, a, ttl);
    assert FindJti(s.rows, s.rows[k].jti) == Some(k);
    assert s1.rows[(k.0, device)] == row && s1.inactive == s.inactive;
    SparedRowStays(s1, run, ttl, k.0, device, row);
    RotatesIff(Exec(s1, run, ttl), k.0, device, row, d, next, now, ttl);
  }

  // ------------------------------------------------------------------ sessions do not multiply

  function ActiveSlots(s: Auth, user: UserId): set<Slot> {
    set k | k in s.rows && k.0 == user && !s.rows[k].revoked
  }

  lemma LoginAddsAtMostOne(s: Auth, u: UserId, device: DeviceId, minted: Jti, expiresAt: int, user: UserId)
    ensures |ActiveSlots(Issued(s, u, device, minted, expiresAt), user)| <= |ActiveSlots(s, user)| + if u == user then 1 else 0
  {
    var before, after := ActiveSlots(s, user), ActiveSlots(Issued(s, u, device, minted, expiresAt), user);
    SubsetSize(after, if u == user then before + {(u, device)} else before);
  }

  lemma RevocationFreesSlot(s: Auth, jti: Jti, log: seq<Event>, user: UserId)
    requires FindJti(s.rows, jti).Some?
    requires !s.rows[FindJti(s.rows, jti).value].revoked
    ensures |ActiveSlots(s.(rows := RevokeJti(s.rows, jti), log := log), user)|
            <= |ActiveSlots(s, user)| - if FindJti(s.rows, jti).value.0 == user then 1 else 0
  {
    var k, before := FindJti(s.rows, jti).value, ActiveSlots(s, user);
    SubsetSize(ActiveSlots(s.(rows := RevokeJti(s.rows, jti), log := log), user), before - {k});
    assert k.0 == user ==> k in before;
  }

  lemma RotationAddsNone(s: Auth, jti: Jti, device: DeviceId, minted: Jti, now: int, ttl: nat, user: UserId)
    requires Refreshable(s, jti, now)
    ensures |ActiveSlots(Refreshed(s, jti, device, minted, now, ttl), user)| <= |ActiveSlots(s, user)|
  {
    var k := FindJti(s.rows, jti).value;
    var revoked := s.(rows := RevokeJti(s.rows, jti), log := s.log + [SessionRevoked(k.0, jti)]);
    assert Refreshed(s, jti, device, minted, now, ttl) == Issued(revoked, k.0, device, minted, now + ttl * 1000);
    LoginAddsAtMostOne(revoked, k.0, device, minted, now + ttl * 1000, user);
    RevocationFreesSlot(s, jti, revoked.log, user);
  }

  /** A login adds at most one active session for its user, everything else none, even a rotation onto
      another device; other users' sessions never grow. */
  lemma SessionsDoNotMultiply(s: Auth, t: Timed, ttl: nat, user: UserId)
    ensures |ActiveSlots(Step(s, t, ttl), user)| <=
              |ActiveSlots(s, user)| + if t.action.Login? && t.action.user == user then 1 else 0
  {
    match t.action
    case Login(u, device, minted) => LoginAddsAtMostOne(s, u, device, minted, t.now + ttl * 1000, user);
    case Rotate(jti, device, minted) =>
      if Refreshable(s, jti, t.now) { RotationAddsNone(s, jti, device, minted, t.now, ttl, user); }
    case _ => SubsetSize(ActiveSlots(Step(s, t, ttl), user), ActiveSlots(s, user));
  }

  // ------------------------------------------------------------------ the signed-out access token

  ghost predicate SameExpiry(run: seq<Timed>, jti: Jti, exp: int) {
    forall i :: 0 <= i < |run| && run[i].action.SignOut? && run[i].action.session == jti ==>
      run[i].action.tokenExp.None? || run[i].action.tokenExp == Some(exp)
  }

  lemma {:induction false} BlacklistKept(s: Auth, run: seq<Timed>, ttl: nat, jti: Jti, exp: int)
    requires jti in s.blacklist && s.blacklist[jti] >= exp * 1000 && SameExpiry(run, jti, exp)
    ensures jti in Exec(s, run, ttl).blacklist && Exec(s, run, ttl).blacklist[jti] >= exp * 1000
    decreases |run|
  {
    if run == [] {
    } else {
      assert forall i :: 0 <= i < |run| - 1 ==> run[1..][i] == run[i + 1];
      BlacklistKept(Step(s, run[0], ttl), run[1..], ttl, jti, exp);
    }
  }

  /** A session's access token is blacklisted from its sign-out for as long as it would be valid, whatever
      happens meanwhile, repeated sign-outs included. */
  lemma SignedOutStaysBlacklisted(s: Auth, user: UserId, jti: Jti, exp: int, now: int, run: seq<Timed>, ttl: nat, later: int)
    requires SameExpiry(run, jti, exp) && now <= later < exp * 1000
    ensures var end := Exec(LoggedOut(s, user, jti, Some(exp), now), run, ttl);
            jti in end.blacklist && later < end.blacklist[jti]
  {
    BlacklistKept(LoggedOut(s, user, jti, Some(exp), now), run, ttl, jti, exp);
  }

  // ------------------------------------------------------------------ an erasure handled late

  /** What the log says while a user's erasure is published but not handled: the unrevoked rows without the
      sessions that user had when it was published. */
  function Pending(rows: Table, user: UserId, known: set<Jti>): map<Slot, Jti> {
    map k | k in rows && !rows[k].revoked && (k.0 != user || rows[k].jti !in known) :: rows[k].jti
  }

  lemma RevocationPends(rows: Table, e: Event, user: UserId, known: set<Jti>)
    requires e.SessionRevoked?
    ensures Pending(RevokeJti(rows, e.jti), user, known) == Apply(Pending(rows, user, known), e)
  {
  }

  lemma CreationPends(rows: Table, slot: Slot, jti: Jti, expiresAt: int, user: UserId, known: set<Jti>)
    requires jti !in known
    ensures Pending(rows[slot := Row(jti, false, expiresAt)], user, known)
            == Apply(Pending(rows, user, known), SessionCreated(slot.0, slot.1, jti))
  {
  }

  lemma ErasurePends(rows: Table, subject: Option<UserId>, user: UserId, known: set<Jti>)
    ensures Pending(if subject.Some? then RevokeUser(rows, subject.value) else rows, user, known)
            == Apply(Pending(rows, user, known), ErasureRequested(subject))
  {
  }

  lemma RotationPends(s: Auth, jti: Jti, device: DeviceId, minted: Jti, now: int, ttl: nat, user: UserId, known: set<Jti>)
    requires Refreshable(s, jti, now) && minted !in known && Replay(s.log) == Pending(s.rows, user, known)
    ensures var s' := Refreshed(s, jti, device, minted, now, ttl); Replay(s'.log) == Pending(s'.rows, user, known)
  {
    var u := FindJti(s.rows, jti).value.0;
    ReplayAppend(s.log, SessionRevoked(u, jti));
    RevocationPends(s.rows, SessionRevoked(u, jti), user, known);
    ReplayAppend(s.log + [SessionRevoked(u, jti)], SessionCreated(u, device, minted));
    CreationPends(RevokeJti(s.rows, jti), (u, device), minted, now + ttl * 1000, user, known);
  }

  lemma StepPends(s: Auth, t: Timed, ttl: nat, user: UserId, known: set<Jti>)
    requires FreshId(s, t.action) && known <= s.issued && Replay(s.log) == Pending(s.rows, user, known)
    ensures Replay(Step(s, t, ttl).log) == Pending(Step(s, t, ttl).rows, user, known)
  {
    match t.action
    case Login(u, device, minted) =>
      ReplayAppend(s.log, SessionCreated(u, device, minted));
      CreationPends(s.rows, (u, device), minted, t.now + ttl * 1000, user, known);
    case Rotate(jti, device, minted) =>
      if Refreshable(s, jti, t.now) { RotationPends(s, jti, device, minted, t.now, ttl, user, known); }
    case SignOut(who, session, tokenExp) =>
      ReplayAppend(s.log, SessionRevoked(who, session));
      RevocationPends(s.rows, SessionRevoked(who, session), user, known);
    case Erasure(subject) =>
      ReplayAppend(s.log, ErasureRequested(subject));
      ErasurePends(s.rows, subject, user, known);
    case Suspend(_) =>
  }

  lemma {:induction false} RunPends(s: Auth, run: seq<Timed>, ttl: nat, user: UserId, known: set<Jti>)
    requires Sound(s) && FreshRun(s, run, ttl) && known <= s.issued && Replay(s.log) == Pending(s.rows, user, known)
    ensures Replay(Exec(s, run, ttl).log) == Pending(Exec(s, run, ttl).rows, user, known)
    decreases |run|
  {
    if run == [] {
    } else {
      StepPends(s, run[0], ttl, user, known);
      StepKeepsSound(s, run[0], ttl);
      RunPends(Step(s, run[0], ttl), run[1..], ttl, user, known);
    }
  }

  lemma PendingIsHandledIff(rows: Table, user: UserId, known: set<Jti>)
    ensures Pending(rows, user, known) == Unrevoked(RevokeUser(rows, user))
            <==> forall k :: k in rows && k.0 == user && !rows[k].revoked ==> rows[k].jti in known
  {
    var pending, handled := Pending(rows, user, known), Unrevoked(RevokeUser(rows, user));
    assert forall k :: k in handled ==> k.0 != user;
    if k :| k in rows && k.0 == user && !rows[k].revoked && rows[k].jti !in known {
      assert k in pending && k !in handled;
    } else {
      assert pending == handled;
    }
  }

  /** When the handler runs some time after the erasure was published, the log still replays to the table
      exactly if the user has got no new session meanwhile that the handler then revokes, unreported. */
  lemma LateErasureIff(s: Auth, user: UserId, run: seq<Timed>, ttl: nat)
    requires Sound(s) && Replay(s.log) == Unrevoked(s.rows)
    requires FreshRun(s.(log := s.log + [ErasureRequested(Some(user))]), run, ttl)
    ensures var end := Exec(s.(log := s.log + [ErasureRequested(Some(user))]), run, ttl);
            Replay(end.log) == Unrevoked(RevokeUser(end.rows, user))
            <==> forall k :: k in end.rows && k.0 == user && !end.rows[k].revoked ==> end.rows[k].jti in s.issued
  {
    var published := s.(log := s.log + [ErasureRequested(Some(user))]);
    ReplayAppend(s.log, ErasureRequested(Some(user)));
    assert Replay(published.log) == Pending(published.rows, user, s.issued);
    RunPends(published, run, ttl, user, s.issued);
    PendingIsHandledIff(Exec(published, run, ttl).rows, user, s.issued);
  }
}
