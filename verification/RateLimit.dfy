/** The Redis sliding-window limiter: an atomic script over a sorted set with an expiry,
    and what it guarantees over every run of calls from many application servers.

    A sorted-set member is "<nowMs>-<random>" with score nowMs, so a member determines its
    score and the sorted set is a set of members. Application servers stamp `nowMs` with
    their own clock; Redis expires keys with its clock `redisMs`. */
module RateLimit {
  import opened FiniteSets

  datatype Policy = Policy(limit: int, windowSeconds: int) {
    function WindowMs(): int { windowSeconds * 1000 }

    function TtlMs(): int { 1000 * if windowSeconds + 5 > 5 then windowSeconds + 5 else 5 }
  }

  datatype Member = Member(nowMs: nat, nonce: nat)

  datatype Zset = Zset(members: set<Member>, expiresAt: int)

  const EMPTY := Zset({}, 0)

  /** How much longer than the window an entry is kept. */
  const SPARE_MS := 5000

  /** One script execution: when Redis ran it, and the member built by the caller. */
  datatype Call = Call(redisMs: int, member: Member)

  datatype Reply = Reply(admitted: bool, count: nat, resetAtMs: int, retryAfterSec: int)

  datatype Decision =
    | Allowed(limit: int, remaining: nat, resetAtEpochSeconds: int)
    | Denied(limit: int, remaining: nat, resetAtEpochSeconds: int, retryAfterSeconds: int)

  // ------------------------------------------------------------------ the script, on values

  /** What the script finds under the key: nothing once Redis has expired it. */
  function Live(z: Zset, redisMs: int): set<Member> {
    if redisMs <= z.expiresAt then z.members else {}
  }

  function Pruned(members: set<Member>, cut: int): set<Member> {
    set m | m in members && !(0 <= m.nowMs <= cut)
  }

  lemma OldestExists(members: set<Member>)
    requires members != {}
    ensures exists m :: m in members && forall x :: x in members ==> m.nowMs <= x.nowMs
  {
    var m :| m in members;
    if members != {m} {
      OldestExists(members - {m});
      var o :| o in members - {m} && forall x :: x in members - {m} ==> o.nowMs <= x.nowMs;
      var best := if m.nowMs < o.nowMs then m else o;
      assert forall x :: x in members ==> x == m || x in members - {m};
      assert best in members && forall x :: x in members ==> best.nowMs <= x.nowMs;
    }
  }

  ghost function OldestScore(members: set<Member>): (score: nat)
    requires members != {}
    ensures exists m :: m in members && m.nowMs == score
    ensures forall x :: x in members ==> score <= x.nowMs
  {
    OldestExists(members);
    var m :| m in members && forall x :: x in members ==> m.nowMs <= x.nowMs;
    m.nowMs
  }

  ghost function Entries(p: Policy, z: Zset, c: Call): set<Member> {
    Pruned(Live(z, c.redisMs), c.member.nowMs - p.WindowMs())
  }

  ghost predicate Admits(p: Policy, z: Zset, c: Call) {
    |Entries(p, z, c)| < p.limit
  }

  ghost function After(p: Policy, z: Zset, c: Call): Zset {
    if Admits(p, z, c)
    then Zset(Entries(p, z, c) + {c.member}, c.redisMs + p.TtlMs())
    else Zset(Entries(p, z, c), z.expiresAt)
  }

  /** When the caller may try again: the oldest entry leaving the window, or a whole window. */
  ghost function ResetAt(p: Policy, z: Zset, c: Call): int {
    if Admits(p, z, c) || Entries(p, z, c) == {} then c.member.nowMs + p.WindowMs()
    else OldestScore(Entries(p, z, c)) + p.WindowMs()
  }

  // ------------------------------------------------------------------ the limiter, in place

  class Limiter {
    const policy: Policy
    var members: set<Member>
    var expiresAt: int

    constructor (policy: Policy)
      ensures this.policy == policy && State() == EMPTY
    {
      this.policy := policy;
      members, expiresAt := {}, 0;
    }

    ghost function State(): Zset
      reads this
    {
      Zset(members, expiresAt)
    }

    /** The Lua script: prune, count, then either report the reset time or add and expire. */
    method RunScript(c: Call) returns (r: Reply)
      modifies this
      ensures State() == After(policy, old(State()), c)
      ensures r.admitted <==> Admits(policy, old(State()), c)
      ensures r.count == |State().members| || (r.admitted && c.member in Entries(policy, old(State()), c))
      ensures r.admitted ==> r.count == |Entries(policy, old(State()), c)| + 1
      ensures r.resetAtMs == ResetAt(policy, old(State()), c)
      ensures r.admitted ==> r.retryAfterSec == 0
      ensures !r.admitted ==> r.retryAfterSec >= 0
      ensures !r.admitted && r.resetAtMs > c.member.nowMs
              ==> r.resetAtMs <= c.member.nowMs + 1000 * r.retryAfterSec < r.resetAtMs + 1000
    {
      var now, windowMs := c.member.nowMs, policy.WindowMs();
      if c.redisMs > expiresAt { members := {}; }
      members := set m | m in members && !(0 <= m.nowMs <= now - windowMs);
      var count := |members|;
      if count >= policy.limit {
        var resetAtMs := now + windowMs;
        if count != 0 {
          OldestExists(members);
          var oldest :| oldest in members && forall x :: x in members ==> oldest.nowMs <= x.nowMs;
          resetAtMs := oldest.nowMs + windowMs;
        }
        var wait := (resetAtMs - now + 999) / 1000;
        return Reply(false, count, resetAtMs, if wait > 0 then wait else 0);
      }
      members := members + {c.member};
      expiresAt := c.redisMs + policy.TtlMs();
      return Reply(true, count + 1, now + windowMs, 0);
    }

    /** `check`: run the script and turn its reply into the decision the guard acts on. */
    method Check(c: Call) returns (d: Decision)
      modifies this
      ensures State() == After(policy, old(State()), c)
      ensures d.Allowed? <==> Admits(policy, old(State()), c)
      ensures d.limit == policy.limit
      ensures d.Allowed? ==> d.remaining == policy.limit - |Entries(policy, old(State()), c)| - 1
      ensures d.Denied? ==> d.remaining == 0 && d.retryAfterSeconds >= 1
      ensures d.Allowed? ==> IsLeastWait(0, c.member.nowMs + policy.windowSeconds * 1000, d.resetAtEpochSeconds)
      ensures 1000 * d.resetAtEpochSeconds - 1000 < ResetAt(policy, old(State()), c) <= 1000 * d.resetAtEpochSeconds
      ensures d.Denied? && ResetAt(policy, old(State()), c) > c.member.nowMs ==>
                IsLeastWait(c.member.nowMs, ResetAt(policy, old(State()), c), d.retryAfterSeconds)
    {
      var r := RunScript(c);
      var resetAtEpochSeconds := (r.resetAtMs + 999) / 1000;
      if r.admitted {
        var left := policy.limit - r.count;
        return Allowed(policy.limit, if left > 0 then left else 0, resetAtEpochSeconds);
      }
      var retry := if r.retryAfterSec == 0 then 1 else r.retryAfterSec;
      return Denied(policy.limit, 0, resetAtEpochSeconds, if retry > 1 then retry else 1);
    }
  }

  /** `seconds` is the least whole number of seconds that carries `nowMs` to `resetAtMs`. */
  ghost predicate IsLeastWait(nowMs: int, resetAtMs: int, seconds: int) {
    nowMs + 1000 * seconds >= resetAtMs && forall s :: nowMs + 1000 * s >= resetAtMs ==> seconds <= s
  }

  // ------------------------------------------------------------------ runs

  /** The store after a run, and every call admitted so far with the Redis time of its admission. */
  datatype Log = Log(z: Zset, admitted: map<Member, int>)

  ghost function Step(p: Policy, log: Log, c: Call): Log {
    Log(After(p, log.z, c), if Admits(p, log.z, c) then log.admitted[c.member := c.redisMs] else log.admitted)
  }

  ghost function Run(p: Policy, calls: seq<Call>): Log {
    if calls == [] then Log(EMPTY, map[])
    else Step(p, Run(p, calls[..|calls| - 1]), calls[|calls| - 1])
  }

  lemma RunAppend(p: Policy, calls: seq<Call>, c: Call)
    ensures Run(p, calls + [c]) == Step(p, Run(p, calls), c)
  {
    assert (calls + [c])[..|calls|] == calls;
  }

  /** Redis executes scripts one after another and its clock does not go back. */
  ghost predicate RedisOrdered(calls: seq<Call>) {
    forall i, j :: 0 <= i < j < |calls| ==> calls[i].redisMs <= calls[j].redisMs
  }

  /** The random suffixes make members distinct. */
  ghost predicate DistinctMembers(calls: seq<Call>) {
    forall i, j :: 0 <= i < j < |calls| ==> calls[i].member != calls[j].member
  }

  /** Every caller's clock is ahead of Redis by at least `offset` and at most `offset + width`. */
  ghost predicate SkewWithin(calls: seq<Call>, offset: int, width: nat) {
    forall i :: 0 <= i < |calls| ==> offset <= calls[i].member.nowMs - calls[i].redisMs <= offset + width
  }

  ghost predicate CallersOrdered(calls: seq<Call>) {
    forall i, j :: 0 <= i < j < |calls| ==> calls[i].member.nowMs <= calls[j].member.nowMs
  }

  ghost function AdmittedWithin(admitted: map<Member, int>, a: int, b: int): set<Member> {
    set m | m in admitted && a < admitted[m] <= b
  }

  lemma {:induction false} NeverOverfull(p: Policy, calls: seq<Call>)
    ensures |Run(p, calls).z.members| <= if p.limit > 0 then p.limit else 0
  {
    if calls == [] {
    } else {
      var prior := calls[..|calls| - 1];
      NeverOverfull(p, prior);
      var z, c := Run(p, prior).z, calls[|calls| - 1];
      assert Entries(p, z, c) <= z.members;
      SubsetSize(Entries(p, z, c), z.members);
    }
  }

  /** Members recorded are exactly members of calls made. */
  lemma {:induction false} AdmittedAreCalls(p: Policy, calls: seq<Call>)
    ensures forall m :: m in Run(p, calls).admitted ==>
              exists i :: 0 <= i < |calls| && calls[i] == Call(Run(p, calls).admitted[m], m)
    ensures forall m :: m in Run(p, calls).z.members ==> m in Run(p, calls).admitted
  {
    if calls == [] {
    } else {
      var prior, c := calls[..|calls| - 1], calls[|calls| - 1];
      AdmittedAreCalls(p, prior);
      var log, log' := Run(p, prior), Run(p, calls);
      forall m | m in log'.admitted
        ensures exists i :: 0 <= i < |calls| && calls[i] == Call(log'.admitted[m], m)
      {
        if m in log.admitted && log'.admitted[m] == log.admitted[m] {
          var i :| 0 <= i < |prior| && prior[i] == Call(log.admitted[m], m);
          assert calls[i] == prior[i];
        } else {
          assert calls[|calls| - 1] == Call(log'.admitted[m], m);
        }
      }
    }
  }

  /** A call with a new member finds it neither stored nor admitted before. */
  lemma FreshMember(p: Policy, prior: seq<Call>, c: Call)
    requires DistinctMembers(prior + [c])
    ensures c.member !in Run(p, prior).admitted && c.member !in Run(p, prior).z.members
  {
    AdmittedAreCalls(p, prior);
    assert (prior + [c])[|prior|] == c;
    assert forall i :: 0 <= i < |prior| ==> (prior + [c])[i] == prior[i];
  }

  /** As long as no call is later than `a + window - width`, everything admitted after `a` is still stored. */
  lemma {:induction false} StillStored(p: Policy, calls: seq<Call>, offset: int, width: nat, a: int)
    requires RedisOrdered(calls) && DistinctMembers(calls) && SkewWithin(calls, offset, width)
    requires forall i :: 0 <= i < |calls| ==> calls[i].redisMs <= a + p.WindowMs() - width
    ensures forall m :: m in Run(p, calls).admitted && Run(p, calls).admitted[m] > a ==>
              m in Run(p, calls).z.members && Run(p, calls).admitted[m] + p.TtlMs() <= Run(p, calls).z.expiresAt
  {
    if calls == [] {
    } else {
      var prior, c := calls[..|calls| - 1], calls[|calls| - 1];
      StillStored(p, prior, offset, width, a);
      AdmittedAreCalls(p, prior);
      var log, log' := Run(p, prior), Run(p, calls);
      forall m | m in log'.admitted && log'.admitted[m] > a
        ensures m in log'.z.members && log'.admitted[m] + p.TtlMs() <= log'.z.expiresAt
      {
        if m in log.admitted {
          var i :| 0 <= i < |prior| && prior[i] == Call(log.admitted[m], m);
          assert calls[i] == prior[i];
          assert m != c.member;
          assert calls[i].redisMs <= c.redisMs;
        }
      }
    }
  }

  lemma PrefixPremises(prior: seq<Call>, c: Call, offset: int, width: nat)
    requires var calls := prior + [c]; RedisOrdered(calls) && DistinctMembers(calls) && SkewWithin(calls, offset, width)
    ensures RedisOrdered(prior) && DistinctMembers(prior) && SkewWithin(prior, offset, width)
  {
    assert forall i :: 0 <= i < |prior| ==> (prior + [c])[i] == prior[i];
  }

  lemma {:induction false} BoundOnStretch(p: Policy, calls: seq<Call>, offset: int, width: nat, a: int, b: int)
    requires RedisOrdered(calls) && DistinctMembers(calls) && SkewWithin(calls, offset, width) && b == a + p.WindowMs() - width
    ensures |AdmittedWithin(Run(p, calls).admitted, a, b)| <= if p.limit > 0 then p.limit else 0
  {
    if calls == [] {
      assert AdmittedWithin(Run(p, calls).admitted, a, b) == {};
    } else if calls[|calls| - 1].redisMs > b {
      var prior, c := calls[..|calls| - 1], calls[|calls| - 1];
      assert calls == prior + [c];
      PrefixPremises(prior, c, offset, width);
      BoundOnStretch(p, prior, offset, width, a, b);
      LaterCallsDoNotMatter(p, prior, c, a, b);
    } else {
      BoundWhileStored(p, calls, offset, width, a);
    }
  }

  /** Safety over every run: any stretch of `window - width` of Redis time admits at most `limit` calls,
      when callers' clocks stay in a band of that width. Width 0 gives the full window. */
  lemma WindowBound(p: Policy, calls: seq<Call>, offset: int, width: nat, a: int)
    requires RedisOrdered(calls) && DistinctMembers(calls) && SkewWithin(calls, offset, width)
    ensures |AdmittedWithin(Run(p, calls).admitted, a, a + p.windowSeconds * 1000 - width)| <= if p.limit > 0 then p.limit else 0
  {
    BoundOnStretch(p, calls, offset, width, a, a + p.windowSeconds * 1000 - width);
  }

  lemma BoundWhileStored(p: Policy, calls: seq<Call>, offset: int, width: nat, a: int)
    requires RedisOrdered(calls) && DistinctMembers(calls) && SkewWithin(calls, offset, width)
    requires calls != [] && calls[|calls| - 1].redisMs <= a + p.WindowMs() - width
    ensures |AdmittedWithin(Run(p, calls).admitted, a, a + p.WindowMs() - width)| <= if p.limit > 0 then p.limit else 0
  {
    assert forall i :: 0 <= i < |calls| ==> calls[i].redisMs <= calls[|calls| - 1].redisMs;
    StillStored(p, calls, offset, width, a);
    NeverOverfull(p, calls);
    SubsetSize(AdmittedWithin(Run(p, calls).admitted, a, a + p.WindowMs() - width), Run(p, calls).z.members);
  }

  lemma LaterCallsDoNotMatter(p: Policy, prior: seq<Call>, c: Call, a: int, b: int)
    requires DistinctMembers(prior + [c]) && c.redisMs > b
    ensures AdmittedWithin(Run(p, prior + [c]).admitted, a, b) == AdmittedWithin(Run(p, prior).admitted, a, b)
  {
    FreshMember(p, prior, c);
    RunAppend(p, prior, c);
  }

  /** `n` calls at Redis time 0, stamped 0. */
  function Burst(n: nat): (calls: seq<Call>)
    ensures |calls| == n && forall i :: 0 <= i < n ==> calls[i] == Call(0, Member(0, i))
  {
    if n == 0 then [] else Burst(n - 1) + [Call(0, Member(0, n - 1))]
  }

  /** A call a window later by its caller's clock, which has run ahead by `width` meanwhile. */
  function Late(p: Policy, width: nat): Call
    requires p.limit >= 1 && width <= p.WindowMs()
  {
    Call(p.WindowMs() - width, Member(p.WindowMs(), p.limit))
  }

  function BurstAndLate(p: Policy, width: nat): seq<Call>
    requires p.limit >= 1 && width <= p.WindowMs()
  {
    Burst(p.limit) + [Late(p, width)]
  }

  function BurstMembers(n: nat): set<Member> {
    set i | 0 <= i < n :: Member(0, i)
  }

  lemma {:induction false} BurstSize(n: nat)
    ensures |BurstMembers(n)| == n
  {
    if n == 0 {
      assert BurstMembers(0) == {};
    } else {
      BurstSize(n - 1);
      assert BurstMembers(n) == BurstMembers(n - 1) + {Member(0, n - 1)};
    }
  }

  ghost predicate BurstLogged(p: Policy, log: Log, n: nat) {
    && log.admitted.Keys == BurstMembers(n) && log.z.members == BurstMembers(n)
    && (forall m :: m in log.admitted ==> log.admitted[m] == 0)
    && (n > 0 ==> log.z.expiresAt == p.TtlMs())
  }

  lemma BurstStep(p: Policy, log: Log, n: nat)
    requires n < p.limit && p.windowSeconds >= 1 && BurstLogged(p, log, n)
    ensures BurstLogged(p, Step(p, log, Call(0, Member(0, n))), n + 1)
  {
    var c := Call(0, Member(0, n));
    BurstSize(n);
    assert Entries(p, log.z, c) == BurstMembers(n);
    assert BurstMembers(n + 1) == BurstMembers(n) + {c.member};
  }

  lemma {:induction false} BurstIsAdmitted(p: Policy, n: nat)
    requires n <= p.limit && p.windowSeconds >= 1
    ensures BurstLogged(p, Run(p, Burst(n)), n)
  {
    if n == 0 {
      assert Run(p, Burst(0)) == Log(EMPTY, map[]);
    } else {
      var log := Run(p, Burst(n - 1));
      BurstIsAdmitted(p, n - 1);
      RunAppend(p, Burst(n - 1), Call(0, Member(0, n - 1)));
      BurstStep(p, log, n - 1);
    }
  }

  lemma BurstAndLateIsLegal(p: Policy, width: nat)
    requires p.limit >= 1 && width <= p.WindowMs()
    ensures var calls := BurstAndLate(p, width);
            RedisOrdered(calls) && DistinctMembers(calls) && SkewWithin(calls, 0, width)
  {
  }

  lemma LateStep(p: Policy, log: Log, width: nat)
    requires p.limit >= 1 && 1 <= width <= p.WindowMs() && BurstLogged(p, log, p.limit)
    ensures |AdmittedWithin(Step(p, log, Late(p, width)).admitted, -1, p.windowSeconds * 1000 - width)| == p.limit + 1
  {
    var late := Late(p, width);
    BurstSize(p.limit);
    assert Entries(p, log.z, late) == {};
    assert AdmittedWithin(Step(p, log, late).admitted, -1, p.WindowMs() - width) == BurstMembers(p.limit) + {late.member};
  }

  /** The bound cannot be stretched by a single millisecond, whatever the limit: `limit` calls at once and one
      that is `width` ahead are all admitted within `window - width + 1` milliseconds of Redis time. */
  lemma WindowBoundIsTight(p: Policy, width: nat)
    requires p.limit >= 1 && 1 <= width <= p.windowSeconds * 1000
    ensures var calls := BurstAndLate(p, width);
            && RedisOrdered(calls) && DistinctMembers(calls) && SkewWithin(calls, 0, width)
            && |AdmittedWithin(Run(p, calls).admitted, -1, p.windowSeconds * 1000 - width)| == p.limit + 1
  {
    BurstAndLateIsLegal(p, width);
    BurstIsAdmitted(p, p.limit);
    LateStep(p, Run(p, Burst(p.limit)), width);
    RunAppend(p, Burst(p.limit), Late(p, width));
    assert Burst(p.limit) + [Late(p, width)] == BurstAndLate(p, width);
  }

  // ------------------------------------------------------------------ refinement

  /** The plain counter: nothing is ever forgotten, and a call gets in when fewer than
      `limit` admissions lie in (now - window, now]. */
  ghost function Counted(p: Policy, admitted: set<Member>, now: nat): set<Member> {
    set m | m in admitted && now - p.windowSeconds * 1000 < m.nowMs <= now
  }

  ghost function PlainRun(p: Policy, calls: seq<Call>): set<Member> {
    if calls == [] then {}
    else
      var admitted := PlainRun(p, calls[..|calls| - 1]);
      var c := calls[|calls| - 1];
      if |Counted(p, admitted, c.member.nowMs)| < p.limit then admitted + {c.member} else admitted
  }

  /** Callers share a clock that does not go back, at most five seconds out of step with Redis. */
  ghost predicate OneClock(calls: seq<Call>, offset: int) {
    RedisOrdered(calls) && CallersOrdered(calls) && SkewWithin(calls, offset, SPARE_MS)
  }

  /** Neither pruning nor expiry has dropped an entry that can still count. */
  ghost predicate Remembers(p: Policy, log: Log, now: int) {
    forall m :: m in log.admitted && now - p.WindowMs() < m.nowMs ==>
      m in log.z.members && log.admitted[m] + p.TtlMs() <= log.z.expiresAt
  }

  lemma RemembersOne(p: Policy, prior: seq<Call>, c: Call, offset: int, now: int, m: Member)
    requires OneClock(prior + [c], offset) && DistinctMembers(prior + [c])
    requires c.member.nowMs <= now && Remembers(p, Run(p, prior), c.member.nowMs)
    requires m in Run(p, prior).admitted && now - p.WindowMs() < m.nowMs
    ensures m in Run(p, prior + [c]).admitted && Run(p, prior + [c]).admitted[m] == Run(p, prior).admitted[m]
    ensures var log := Run(p, prior + [c]); m in log.z.members && log.admitted[m] + p.TtlMs() <= log.z.expiresAt
  {
    var log, calls := Run(p, prior), prior + [c];
    AdmittedAreCalls(p, prior);
    RunAppend(p, prior, c);
    var i :| 0 <= i < |prior| && prior[i] == Call(log.admitted[m], m);
    assert calls[i] == prior[i] && calls[|prior|] == c;
    assert m != c.member && calls[i].redisMs <= c.redisMs;
  }

  lemma {:induction false} RemembersAll(p: Policy, calls: seq<Call>, offset: int, now: int)
    requires OneClock(calls, offset) && DistinctMembers(calls)
    requires forall i :: 0 <= i < |calls| ==> calls[i].member.nowMs <= now
    ensures Remembers(p, Run(p, calls), now)
  {
    if calls == [] {
    } else {
      var prior, c := calls[..|calls| - 1], calls[|calls| - 1];
      RemembersAll(p, prior, offset, c.member.nowMs);
      var log, log' := Run(p, prior), Run(p, calls);
      assert calls == prior + [c];
      forall m | m in log'.admitted && now - p.WindowMs() < m.nowMs
        ensures m in log'.z.members && log'.admitted[m] + p.TtlMs() <= log'.z.expiresAt
      {
        if m in log.admitted { RemembersOne(p, prior, c, offset, now, m); }
      }
    }
  }

  lemma ClockPrefix(prior: seq<Call>, c: Call, offset: int)
    requires OneClock(prior + [c], offset) && DistinctMembers(prior + [c])
    ensures OneClock(prior, offset) && DistinctMembers(prior)
    ensures forall i :: 0 <= i < |prior| ==> prior[i].member.nowMs <= c.member.nowMs
  {
    var calls := prior + [c];
    assert forall i :: 0 <= i < |prior| ==> calls[i] == prior[i];
    assert calls[|prior|] == c;
  }

  /** What the script counts is what the plain counter counts. */
  lemma CountsAgree(p: Policy, prior: seq<Call>, c: Call, offset: int)
    requires OneClock(prior + [c], offset) && DistinctMembers(prior + [c])
    ensures Entries(p, Run(p, prior).z, c) == Counted(p, Run(p, prior).admitted.Keys, c.member.nowMs)
  {
    ClockPrefix(prior, c, offset);
    assert (prior + [c])[|prior|] == c;
    RemembersAll(p, prior, offset, c.member.nowMs);
    AdmittedAreCalls(p, prior);
    var log := Run(p, prior);
    forall m | m in log.admitted && c.member.nowMs - p.WindowMs() < m.nowMs
      ensures m in Entries(p, log.z, c) && m.nowMs <= c.member.nowMs
    {
      var i :| 0 <= i < |prior| && prior[i] == Call(log.admitted[m], m);
      assert (prior + [c])[i] == prior[i];
    }
  }

  /** Refinement: the script admits exactly the calls the plain counter admits. */
  lemma {:induction false} RefinesPlainCounter(p: Policy, calls: seq<Call>, offset: int)
    requires OneClock(calls, offset) && DistinctMembers(calls)
    ensures Run(p, calls).admitted.Keys == PlainRun(p, calls)
  {
    if calls == [] {
    } else {
      var prior, c := calls[..|calls| - 1], calls[|calls| - 1];
      assert calls == prior + [c];
      RefinesPlainCounter(p, prior, offset);
      CountsAgree(p, prior, c, offset);
    }
  }

  // ------------------------------------------------------------------ exact denial

  ghost predicate Denies(p: Policy, calls: seq<Call>, c: Call) {
    !Admits(p, Run(p, calls).z, c)
  }

  /** Runs a limiter can see: one clock, new members. */
  ghost predicate Regular(calls: seq<Call>, offset: int) {
    OneClock(calls, offset) && DistinctMembers(calls)
  }

  lemma RegularPrefix(calls: seq<Call>, c: Call, offset: int)
    requires Regular(calls + [c], offset)
    ensures Regular(calls, offset)
    ensures forall i :: 0 <= i < |calls| ==> calls[i].member.nowMs <= c.member.nowMs
  {
    assert (calls + [c])[|calls|] == c;
    assert forall i :: 0 <= i < |calls| ==> (calls + [c])[i] == calls[i];
  }

  /** Entries that no later prune has reached stay, as the only entries, while nobody is added. */
  lemma EntriesStay(p: Policy, before: seq<Call>, c: Call, offset: int, es: set<Member>)
    requires Regular(before + [c], offset)
    requires Run(p, before).z.members == es
    requires forall m :: m in es ==> c.member.nowMs - p.WindowMs() < m.nowMs
    ensures Entries(p, Run(p, before).z, c) == es
  {
    RegularPrefix(before, c, offset);
    RemembersAll(p, before, offset, c.member.nowMs);
    AdmittedAreCalls(p, before);
    CountsAgree(p, before, c, offset);
    assert forall m :: m in es ==> m in Entries(p, Run(p, before).z, c);
  }

  /** While no caller's clock has reached the reset time, a denial keeps everyone out. */
  lemma {:induction false} DeniedUntilReset(p: Policy, prior: seq<Call>, denied: Call, mid: seq<Call>, offset: int)
    requires p.limit >= 1 && Denies(p, prior, denied)
    requires Regular(prior + [denied] + mid, offset)
    requires forall i :: 0 <= i < |mid| ==> mid[i].member.nowMs < ResetAt(p, Run(p, prior).z, denied)
    ensures Run(p, prior + [denied] + mid).admitted == Run(p, prior).admitted
    ensures Run(p, prior + [denied] + mid).z.members == Entries(p, Run(p, prior).z, denied)
  {
    if mid == [] {
      RunAppend(p, prior, denied);
      assert prior + [denied] + mid == prior + [denied];
    } else {
      var m0, c := mid[..|mid| - 1], mid[|mid| - 1];
      var before := prior + [denied] + m0;
      assert prior + [denied] + mid == before + [c];
      RegularPrefix(before, c, offset);
      DeniedUntilReset(p, prior, denied, m0, offset);
      var es := Entries(p, Run(p, prior).z, denied);
      assert c.member.nowMs < OldestScore(es) + p.WindowMs();
      EntriesStay(p, before, c, offset, es);
      RunAppend(p, before, c);
    }
  }

  /** The reset time is exact: a call after the denial, whatever the traffic in between that
      stayed before the reset time, gets in if and only if its clock has reached it. */
  lemma ResetIsExact(p: Policy, prior: seq<Call>, denied: Call, mid: seq<Call>, next: Call, offset: int)
    requires p.limit >= 1 && Denies(p, prior, denied)
    requires Regular(prior + [denied] + mid + [next], offset)
    requires forall i :: 0 <= i < |mid| ==> mid[i].member.nowMs < ResetAt(p, Run(p, prior).z, denied)
    ensures denied.member.nowMs < ResetAt(p, Run(p, prior).z, denied)
    ensures Denies(p, prior + [denied] + mid, next) <==> next.member.nowMs < ResetAt(p, Run(p, prior).z, denied)
  {
    var before := prior + [denied] + mid;
    RegularPrefix(before, next, offset);
    DeniedUntilReset(p, prior, denied, mid, offset);
    var es := Entries(p, Run(p, prior).z, denied);
    var o :| o in es && o.nowMs == OldestScore(es);
    if next.member.nowMs < ResetAt(p, Run(p, prior).z, denied) {
      EntriesStay(p, before, next, offset, es);
    } else {
      NeverOverfull(p, before);
      assert Entries(p, Run(p, before).z, next) <= es - {o};
      SubsetSize(Entries(p, Run(p, before).z, next), es - {o});
    }
  }

  /** Calls stamped with the same millisecond that reach Redis later, before it can have expired c's entry. */
  ghost predicate SameMillisecond(p: Policy, c: Call, more: seq<Call>) {
    forall i :: 0 <= i < |more| ==>
      more[i].member.nowMs == c.member.nowMs && c.redisMs <= more[i].redisMs <= c.redisMs + p.TtlMs()
  }

  /** `added` calls of c's millisecond have been admitted on top of `logged` earlier ones, `kept` of which still count. */
  ghost predicate Filled(p: Policy, log: Log, c: Call, logged: nat, kept: nat, added: nat) {
    && |log.admitted| == logged + added
    && |log.z.members| == kept + added
    && log.z.expiresAt >= c.redisMs + p.TtlMs()
    && forall m :: m in log.z.members ==> m.nowMs > c.member.nowMs - p.WindowMs()
  }

  lemma OneMore(p: Policy, before: seq<Call>, d: Call, c: Call, logged: nat, kept: nat, added: nat)
    requires p.windowSeconds >= 1 && DistinctMembers(before + [d]) && SameMillisecond(p, c, [d])
    requires Filled(p, Run(p, before), c, logged, kept, added)
    ensures Filled(p, Run(p, before + [d]), c, logged, kept, if kept + added < p.limit then added + 1 else added)
  {
    assert [d][0] == d;
    RunAppend(p, before, d);
    FreshMember(p, before, d);
    assert Entries(p, Run(p, before).z, d) == Run(p, before).z.members;
  }

  /** The reset time of an admission is when the last of the entries it left behind stops counting: the next call
      finds nothing counted exactly if it comes a whole window later. */
  lemma AdmittedResetIsExact(p: Policy, prior: seq<Call>, c: Call, next: Call, offset: int)
    requires Regular(prior + [c] + [next], offset) && !Denies(p, prior, c)
    ensures ResetAt(p, Run(p, prior).z, c) == c.member.nowMs + p.windowSeconds * 1000
    ensures Entries(p, Run(p, prior + [c]).z, next) == {} <==> next.member.nowMs >= ResetAt(p, Run(p, prior).z, c)
  {
    var before := prior + [c];
    CountsAgree(p, before, next, offset);
    RegularPrefix(before, next, offset);
    RegularPrefix(prior, c, offset);
    RunAppend(p, prior, c);
    AdmittedAreCalls(p, before);
    assert before[|prior|] == c;
    forall m | m in Run(p, before).admitted
      ensures m.nowMs <= c.member.nowMs
    {
      var i :| 0 <= i < |before| && before[i] == Call(Run(p, before).admitted[m], m);
      assert i < |prior| ==> before[i] == prior[i];
    }
    assert c.member in Run(p, before).admitted;
    if next.member.nowMs < c.member.nowMs + p.windowSeconds * 1000 {
      assert c.member in Counted(p, Run(p, before).admitted.Keys, next.member.nowMs);
    }
  }

  /** Without further admissions the key is gone exactly when it has outlived the window by five seconds. */
  lemma KeyExpiresIff(p: Policy, prior: seq<Call>, c: Call, later: int)
    requires p.windowSeconds >= 1 && !Denies(p, prior, c)
    ensures Live(Run(p, prior + [c]).z, later) == {} <==> later > c.redisMs + (p.windowSeconds + 5) * 1000
  {
    RunAppend(p, prior, c);
    assert c.member in Run(p, prior + [c]).z.members;
  }

  /** After an admission, exactly `remaining` more calls stamped with the same millisecond get in. */
  lemma {:induction false} RemainingIsExact(p: Policy, prior: seq<Call>, c: Call, more: seq<Call>)
    requires p.windowSeconds >= 1
    requires DistinctMembers(prior + [c] + more) && SameMillisecond(p, c, more)
    requires !Denies(p, prior, c)
    ensures var kept := |Entries(p, Run(p, prior).z, c)|;
            var left := p.limit - kept - 1;
            && left >= 0
            && Filled(p, Run(p, prior + [c] + more), c, |Run(p, prior).admitted|, kept, 1 + if |more| < left then |more| else left)
  {
    var kept := |Entries(p, Run(p, prior).z, c)|;
    var left := p.limit - kept - 1;
    if more == [] {
      assert prior + [c] + more == prior + [c];
      FreshMember(p, prior, c);
      RunAppend(p, prior, c);
    } else {
      var m0, d := more[..|more| - 1], more[|more| - 1];
      var before := prior + [c] + m0;
      assert prior + [c] + more == before + [d];
      assert forall i :: 0 <= i < |before| ==> (before + [d])[i] == before[i];
      RemainingIsExact(p, prior, c, m0);
      OneMore(p, before, d, c, |Run(p, prior).admitted|, kept, 1 + if |m0| < left then |m0| else left);
    }
  }
}
