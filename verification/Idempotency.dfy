/** Idempotent requests: the stored key row (as the Prisma adapter keeps it) and the interceptor's
    find / begin / run / complete-or-fail protocol, for any interleaving of requests over any keys. */
module Idempotency {
  import opened Optional

  type Key = (string, string)
  type Hash = nat

  /** A handler's result; null and undefined are stored alike, as nothing. */
  type Result = Option<int>

  datatype Status = InProgress | Completed | Failed

  datatype Row = Row(status: Status, hash: Hash, payload: Result, expiresAt: int)

  type Rows = map<Key, Row>

  datatype Decision = Execute | Skip(response: Result)

  const TTL_MS: int := 24 * 60 * 60 * 1000

  // ------------------------------------------------------------------ the key repository

  /** A key can be (re)claimed when it is new, its last attempt failed, or that attempt is stuck. */
  predicate Claimable(rows: Rows, key: Key, now: int) {
    key !in rows || rows[key].status == Failed || (rows[key].status == InProgress && rows[key].expiresAt <= now)
  }

  function Claimed(rows: Rows, key: Key, hash: Hash, now: int): Rows {
    rows[key := Row(InProgress, hash, if key in rows then rows[key].payload else None, now + TTL_MS)]
  }

  /** Updating a row that has been purged fails and changes nothing. */
  function Closed(rows: Rows, key: Key, result: Result): Rows {
    if key !in rows then rows
    else rows[key := rows[key].(status := Completed, payload := if result.Some? then result else rows[key].payload)]
  }

  function Reopened(rows: Rows, key: Key): Rows {
    if key !in rows then rows else rows[key := rows[key].(status := Failed)]
  }

  function Purged(rows: Rows, now: int): Rows {
    map key | key in rows && rows[key].expiresAt >= now :: rows[key]
  }

  class KeyRepository {
    var rows: Rows

    constructor ()
      ensures rows == map[]
    {
      rows := map[];
    }

    method Begin(key: Key, hash: Hash, now: int) returns (d: Decision)
      modifies this
      ensures d.Execute? <==> Claimable(old(rows), key, now)
      ensures d.Execute? ==> rows == Claimed(old(rows), key, hash, now)
      ensures d.Skip? ==> rows == old(rows)
                          && d.response == if old(rows)[key].status == Completed then old(rows)[key].payload else None
    {
      if key !in rows {
        rows := rows[key := Row(InProgress, hash, None, now + TTL_MS)];
        return Execute;
      }
      var existing := rows[key];
      if existing.status == Completed {
        return Skip(existing.payload);
      }
      if existing.status == InProgress && existing.expiresAt > now {
        return Skip(None);
      }
      rows := rows[key := existing.(status := InProgress, hash := hash, expiresAt := now + TTL_MS)];
      return Execute;
    }

    method Complete(key: Key, result: Result) returns (ok: bool)
      modifies this
      ensures rows == Closed(old(rows), key, result)
      ensures ok <==> key in old(rows)
    {
      if key !in rows { return false; }
      rows := rows[key := rows[key].(status := Completed)];
      if result.Some? {
        rows := rows[key := rows[key].(payload := result)];
      }
      return true;
    }

    method Fail(key: Key) returns (ok: bool)
      modifies this
      ensures rows == Reopened(old(rows), key)
      ensures ok <==> key in old(rows)
    {
      if key !in rows { return false; }
      rows := rows[key := rows[key].(status := Failed)];
      return true;
    }

    method DeleteExpiredKeys(now: int)
      modifies this
      ensures rows == Purged(old(rows), now)
    {
      rows := map key | key in rows && rows[key].expiresAt >= now :: rows[key];
    }
  }

  // ------------------------------------------------------------------ the interceptor's protocol

  datatype Answer = Own(result: Result) | Replayed(response: Result) | Conflict | Error

  datatype Pc =
    | Finding
    | Beginning
    | Running
    | Completing(result: Result)
    | Failing
    | Answered(answer: Answer)

  /** One request: how often its handler was started, and whether it succeeded. */
  datatype Task = Task(key: Key, hash: Hash, pc: Pc, runs: nat, done: bool)

  function NewTask(key: Key, hash: Hash): Task { Task(key, hash, Finding, 0, false) }

  datatype System = System(now: int, rows: Rows, tasks: seq<Task>)

  /** An update is carried out, or it fails with or without having been carried out. */
  datatype Reply = Stored | Refused | Unanswered

  /** `Succeed` and `Throw` are the handler's outcome. */
  datatype Op = Find | Begin | Succeed(result: Result) | Throw | Complete(reply: Reply) | Fail(reply: Reply)

  datatype Action = Tick(ms: nat) | Arrive(key: Key, hash: Hash) | Purge | Local(i: nat, op: Op)

  function BeginTask(rows: Rows, t: Task, now: int): Task {
    if Claimable(rows, t.key, now) then t.(pc := Running, runs := t.runs + 1)
    else if rows[t.key].status == Completed then t.(pc := Answered(Replayed(rows[t.key].payload)))
    else t.(pc := Answered(Replayed(None)))
  }

  function LocalTask(s: System, t: Task, op: Op): Task {
    match op
    case Find =>
      if !t.pc.Finding? then t
      else if t.key in s.rows && s.rows[t.key].hash != t.hash then t.(pc := Answered(Conflict))
      else t.(pc := Beginning)
    case Begin => if t.pc.Beginning? then BeginTask(s.rows, t, s.now) else t
    case Succeed(result) => if t.pc.Running? then t.(pc := Completing(result), done := true) else t
    case Throw => if t.pc.Running? then t.(pc := Failing) else t
    case Complete(reply) =>
      if !t.pc.Completing? then t
      else if reply == Stored && t.key in s.rows then t.(pc := Answered(Own(t.pc.result)))
      else t.(pc := Failing)
    case Fail(_) => if t.pc.Failing? then t.(pc := Answered(Error)) else t
  }

  function LocalRows(s: System, t: Task, op: Op): Rows {
    match op
    case Begin =>
      if t.pc.Beginning? && Claimable(s.rows, t.key, s.now) then Claimed(s.rows, t.key, t.hash, s.now) else s.rows
    case Complete(reply) =>
      if t.pc.Completing? && reply != Refused then Closed(s.rows, t.key, t.pc.result) else s.rows
    case Fail(reply) => if t.pc.Failing? && reply != Refused then Reopened(s.rows, t.key) else s.rows
    case _ => s.rows
  }

  function Step(s: System, a: Action): System {
    match a
    case Tick(ms) => s.(now := s.now + ms)
    case Arrive(key, hash) => s.(tasks := s.tasks + [NewTask(key, hash)])
    case Purge => s.(rows := Purged(s.rows, s.now))
    case Local(i, op) =>
      if i < |s.tasks| then
        s.(tasks := s.tasks[i := LocalTask(s, s.tasks[i], op)], rows := LocalRows(s, s.tasks[i], op))
      else s
  }

  /** A request's whole way through the protocol when nothing comes between its steps. */
  function Alone(s: System, i: nat, outcome: Option<Result>): System {
    var begun := Step(Step(s, Local(i, Find)), Local(i, Begin));
    match outcome
    case Some(result) => Step(Step(begun, Local(i, Succeed(result))), Local(i, Complete(Stored)))
    case None => Step(Step(begun, Local(i, Throw)), Local(i, Fail(Stored)))
  }

  /** The interceptor around one handler, whose outcome is given: a result, or an exception. */
  method Intercept(repo: KeyRepository, key: Key, hash: Hash, now: int, outcome: Option<Result>)
    returns (answer: Answer, ran: bool)
    modifies repo
    ensures var end := Alone(System(now, old(repo.rows), [NewTask(key, hash)]), 0, outcome);
            && repo.rows == end.rows
            && end.tasks[0].pc == Answered(answer)
            && end.tasks[0].runs == if ran then 1 else 0
  {
    if key in repo.rows && repo.rows[key].hash != hash {
      return Conflict, false;
    }
    var decision := repo.Begin(key, hash, now);
    if decision.Skip? {
      return Replayed(decision.response), false;
    }
    if outcome.None? {
      var _ := repo.Fail(key);
      return Error, true;
    }
    var _ := repo.Complete(key, outcome.value);
    return Own(outcome.value), true;
  }

  function Exec(s: System, run: seq<Action>): System
    decreases |run|
  {
    if run == [] then s else Exec(Step(s, run[0]), run[1..])
  }

  const EMPTY := System(0, map[], [])

  lemma {:induction false} ExecAppend(s: System, before: seq<Action>, after: seq<Action>)
    ensures Exec(s, before + after) == Exec(Exec(s, before), after)
    decreases |before|
  {
    if before == [] {
      assert before + after == after;
    } else {
      assert (before + after)[1..] == before[1..] + after;
      ExecAppend(Step(s, before[0]), before[1..], after);
    }
  }

  // ------------------------------------------------------------------ what one key's runs must keep to

  /** Between claiming the key and reporting back. */
  predicate Busy(t: Task) { t.pc.Running? || t.pc.Completing? || t.pc.Failing? }

  predicate Finished(t: Task) { t.pc.Answered? && t.pc.answer.Own? }

  predicate Held(s: System, key: Key) {
    exists i :: 0 <= i < |s.tasks| && s.tasks[i].key == key && Busy(s.tasks[i])
  }

  /** About one key only: nobody claims it past its TTL while its holder is still at work, it is not purged
      while held or completed, and no completion of it is lost. */
  ghost predicate Safe(s: System, a: Action, key: Key) {
    match a
    case Purge =>
      key in s.rows && (Held(s, key) || s.rows[key].status == Completed) ==> s.now <= s.rows[key].expiresAt
    case Local(i, op) =>
      i < |s.tasks| && s.tasks[i].key == key ==>
        && (op.Begin? && key in s.rows && Held(s, key) ==> s.now < s.rows[key].expiresAt)
        && (op.Complete? ==> op.reply == Stored)
    case _ => true
  }

  ghost predicate SafeRun(s: System, run: seq<Action>, key: Key)
    decreases |run|
  {
    run == [] || (Safe(s, run[0], key) && SafeRun(Step(s, run[0]), run[1..], key))
  }

  // ------------------------------------------------------------------ the invariant of one key

  /** The key's row records this request's body and result. */
  predicate HoldsAnswer(rows: Rows, t: Task)
    requires Finished(t)
  {
    && t.key in rows && rows[t.key].status == Completed
    && rows[t.key].hash == t.hash && rows[t.key].payload == t.pc.answer.result
  }

  predicate TaskOk(s: System, t: Task) {
    && (Busy(t) ==> t.key in s.rows && s.rows[t.key].status == InProgress && s.rows[t.key].hash == t.hash)
    && (Finished(t) ==> HoldsAnswer(s.rows, t))
    && (t.done <==> t.pc.Completing? || Finished(t))
    && t.runs == (if Busy(t) || (t.pc.Answered? && (t.pc.answer.Own? || t.pc.answer.Error?)) then 1 else 0)
  }

  ghost predicate Inv(s: System, key: Key) {
    && (forall i :: 0 <= i < |s.tasks| && s.tasks[i].key == key ==> TaskOk(s, s.tasks[i]))
    && (forall i, j :: 0 <= i < j < |s.tasks| && s.tasks[i].key == key && s.tasks[j].key == key
          ==> !(Busy(s.tasks[i]) && Busy(s.tasks[j])) && !(Finished(s.tasks[i]) && Finished(s.tasks[j])))
    && (key in s.rows && s.rows[key].status != Completed ==> s.rows[key].payload.None?)
  }

  /** One request's step leaves every other request for the key in order. */
  lemma LocalOthers(s: System, i: nat, op: Op, j: nat, key: Key)
    requires Inv(s, key) && i < |s.tasks| && j < |s.tasks| && i != j && s.tasks[j].key == key
    requires Safe(s, Local(i, op), key)
    ensures var s', t' := Step(s, Local(i, op)), LocalTask(s, s.tasks[i], op);
            && TaskOk(s', s.tasks[j])
            && (t'.key == key ==> !(Busy(t') && Busy(s.tasks[j])) && !(Finished(t') && Finished(s.tasks[j])))
  {
    assert TaskOk(s, s.tasks[j]);
    if s.tasks[i].key == key {
      assert TaskOk(s, s.tasks[i]);
      assert Busy(s.tasks[j]) ==> Held(s, key);
    }
  }

  lemma LocalSelf(s: System, i: nat, op: Op)
    requires i < |s.tasks| && Inv(s, s.tasks[i].key) && Safe(s, Local(i, op), s.tasks[i].key)
    ensures TaskOk(Step(s, Local(i, op)), LocalTask(s, s.tasks[i], op))
    ensures var rows, key := LocalRows(s, s.tasks[i], op), s.tasks[i].key;
            key in rows && rows[key].status != Completed ==> rows[key].payload.None?
  {
    assert TaskOk(s, s.tasks[i]);
  }

  lemma ElsewhereKeepsInv(s: System, a: Action, key: Key)
    requires Inv(s, key) && Safe(s, a, key) && !a.Local?
    ensures Inv(Step(s, a), key)
  {
    var s' := Step(s, a);
    forall j | 0 <= j < |s'.tasks| && s'.tasks[j].key == key
      ensures TaskOk(s', s'.tasks[j])
    {
      if j < |s.tasks| {
        assert TaskOk(s, s.tasks[j]);
        assert Busy(s.tasks[j]) ==> Held(s, key);
      }
    }
  }

  lemma StepKeepsInv(s: System, a: Action, key: Key)
    requires Inv(s, key) && Safe(s, a, key)
    ensures Inv(Step(s, a), key)
  {
    if !a.Local? {
      ElsewhereKeepsInv(s, a, key);
    } else if a.i < |s.tasks| {
      if s.tasks[a.i].key == key { LocalSelf(s, a.i, a.op); }
      forall j | 0 <= j < |s.tasks| && j != a.i && s.tasks[j].key == key
        ensures var s', t' := Step(s, a), LocalTask(s, s.tasks[a.i], a.op);
                && TaskOk(s', s.tasks[j])
                && (t'.key == key ==> !(Busy(t') && Busy(s.tasks[j])) && !(Finished(t') && Finished(s.tasks[j])))
      {
        LocalOthers(s, a.i, a.op, j, key);
      }
    }
  }

  lemma {:induction false} RunKeepsInv(s: System, run: seq<Action>, key: Key)
    requires Inv(s, key) && SafeRun(s, run, key)
    ensures Inv(Exec(s, run), key)
    decreases |run|
  {
    if run == [] {
    } else {
      StepKeepsInv(s, run[0], key);
      RunKeepsInv(Step(s, run[0]), run[1..], key);
    }
  }

  // ------------------------------------------------------------------ guarantees

  /** In every interleaving of requests over any keys and of any length, the handler succeeds for at most one
      request of a key that is neither outlived, nor purged too early, nor robbed of its completion. */
  lemma AtMostOneSuccess(run: seq<Action>, key: Key, i: nat, j: nat)
    requires SafeRun(EMPTY, run, key)
    requires var end := Exec(EMPTY, run);
             && i < |end.tasks| && j < |end.tasks| && end.tasks[i].key == key && end.tasks[j].key == key
             && end.tasks[i].done && end.tasks[j].done
    ensures i == j
  {
    RunKeepsInv(EMPTY, run, key);
    var end := Exec(EMPTY, run);
    assert TaskOk(end, end.tasks[i]) && TaskOk(end, end.tasks[j]);
  }

  /** A completed key keeps its response. */
  lemma {:induction false} CompletedStays(s: System, run: seq<Action>, key: Key)
    requires Inv(s, key) && SafeRun(s, run, key) && key in s.rows && s.rows[key].status == Completed
    ensures key in Exec(s, run).rows && Exec(s, run).rows[key] == s.rows[key]
    decreases |run|
  {
    if run == [] {
    } else {
      CompletedStep(s, run[0], key);
      StepKeepsInv(s, run[0], key);
      CompletedStays(Step(s, run[0]), run[1..], key);
    }
  }

  lemma CompletedStep(s: System, a: Action, key: Key)
    requires Inv(s, key) && Safe(s, a, key) && key in s.rows && s.rows[key].status == Completed
    ensures key in Step(s, a).rows && Step(s, a).rows[key] == s.rows[key]
  {
    if a.Local? && a.i < |s.tasks| && s.tasks[a.i].key == key { assert TaskOk(s, s.tasks[a.i]); }
  }

  /** Where a request that meets a completed row can be: it has run nothing, and is on its way to the stored
      response if it carries the same body or has looked the key up before, else on its way to a conflict. */
  predicate MeetsRow(row: Row, t: Task) {
    && t.runs == 0
    && match t.pc
       case Finding => true
       case Beginning => true
       case Answered(answer) => answer == (if t.hash == row.hash then Replayed(row.payload) else Conflict)
       case _ => false
  }

  predicate HasLooked(row: Row, t: Task) {
    t.runs == 0 && (t.pc.Beginning? || t.pc == Answered(Replayed(row.payload)))
  }

  predicate Arriving(row: Row, t: Task) {
    MeetsRow(row, t) && (t.pc.Beginning? ==> t.hash == row.hash)
  }

  /** After a success has been recorded, in every further interleaving, every request for the key that had not
      looked it up yet runs nothing: with the same body its only possible answer is the recorded result, with
      another body a conflict. */
  lemma ReplaysTheResponse(before: seq<Action>, after: seq<Action>, i: nat, j: nat)
    requires i < |Exec(EMPTY, before).tasks| && Finished(Exec(EMPTY, before).tasks[i])
    requires SafeRun(EMPTY, before, Exec(EMPTY, before).tasks[i].key)
    requires SafeRun(Exec(EMPTY, before), after, Exec(EMPTY, before).tasks[i].key)
    requires j < |Exec(EMPTY, before + after).tasks|
    requires Exec(EMPTY, before + after).tasks[j].key == Exec(EMPTY, before).tasks[i].key
    requires j < |Exec(EMPTY, before).tasks| ==> Exec(EMPTY, before).tasks[j].pc.Finding?
    ensures var first, t := Exec(EMPTY, before).tasks[i], Exec(EMPTY, before + after).tasks[j];
            && t.runs == 0
            && (t.hash == first.hash ==> t.pc.Finding? || t.pc.Beginning? || t.pc == Answered(Replayed(first.pc.answer.result)))
            && (t.hash != first.hash ==> t.pc.Finding? || t.pc == Answered(Conflict))
  {
    var s := Exec(EMPTY, before);
    RunKeepsInv(EMPTY, before, s.tasks[i].key);
    ExecAppend(EMPTY, before, after);
    assert TaskOk(s, s.tasks[i]);
    if j < |s.tasks| {
      KeyStays(s, after, j);
      assert TaskOk(s, s.tasks[j]);
    }
    ArrivingStays(s, after, s.tasks[i].key, j);
  }

  /** A request that had looked before the key was completed is given the stored response, whatever its body. */
  lemma {:induction false} LookedBeforeReplays(s: System, run: seq<Action>, key: Key, j: nat)
    requires Inv(s, key) && SafeRun(s, run, key) && key in s.rows && s.rows[key].status == Completed
    requires j < |s.tasks| && s.tasks[j].key == key && HasLooked(s.rows[key], s.tasks[j])
    ensures j < |Exec(s, run).tasks| && HasLooked(s.rows[key], Exec(s, run).tasks[j])
    decreases |run|
  {
    if run == [] {
    } else {
      CompletedStep(s, run[0], key);
      StepKeepsInv(s, run[0], key);
      LookedBeforeReplays(Step(s, run[0]), run[1..], key, j);
    }
  }

  lemma BeginComparesNoBodies(s: System, i: nat, j: nat)
    requires i < |s.tasks| && j < |s.tasks| && Inv(s, s.tasks[i].key)
    requires Finished(s.tasks[i]) && s.tasks[j].pc.Beginning? && s.tasks[j].key == s.tasks[i].key
    ensures Step(s, Local(j, Begin)).tasks[j].pc == Answered(Replayed(s.tasks[i].pc.answer.result))
  {
    assert TaskOk(s, s.tasks[i]);
  }

  lemma {:induction false} KeyStays(s: System, run: seq<Action>, j: nat)
    requires j < |s.tasks|
    ensures j < |Exec(s, run).tasks| && Exec(s, run).tasks[j].key == s.tasks[j].key
    decreases |run|
  {
    if run == [] {
    } else {
      KeyStays(Step(s, run[0]), run[1..], j);
    }
  }

  lemma {:induction false} ArrivingStays(s: System, run: seq<Action>, key: Key, j: nat)
    requires Inv(s, key) && SafeRun(s, run, key) && key in s.rows && s.rows[key].status == Completed
    requires j < |s.tasks| ==> (s.tasks[j].key == key ==> Arriving(s.rows[key], s.tasks[j]))
    requires j < |Exec(s, run).tasks| && Exec(s, run).tasks[j].key == key
    ensures Arriving(s.rows[key], Exec(s, run).tasks[j])
    decreases |run|
  {
    if run == [] {
    } else {
      CompletedStep(s, run[0], key);
      StepKeepsInv(s, run[0], key);
      ArrivingStays(Step(s, run[0]), run[1..], key, j);
    }
  }

  /** A request that finds the key used with another body is turned away and runs nothing. */
  lemma OtherBodyConflicts(s: System, j: nat)
    requires j < |s.tasks| && Inv(s, s.tasks[j].key) && s.tasks[j].pc.Finding? && s.tasks[j].key in s.rows
    ensures var t := Step(s, Local(j, Find)).tasks[j];
            (t.pc == Answered(Conflict) && t.runs == 0) <==> s.rows[s.tasks[j].key].hash != s.tasks[j].hash
  {
    assert TaskOk(s, s.tasks[j]);
  }

  /** After a thrown handler the key can be retried, and the retry runs its handler: exactly if it carries
      the same body, for the failed row still remembers the body it was claimed with. */
  lemma FailedIsRetryable(s: System, i: nat, j: nat)
    requires i < |s.tasks| && j < |s.tasks| && i != j && Inv(s, s.tasks[i].key)
    requires s.tasks[i].pc.Failing? && s.tasks[j].pc.Finding? && s.tasks[j].key == s.tasks[i].key
    ensures var end := Step(Step(Step(s, Local(i, Fail(Stored))), Local(j, Find)), Local(j, Begin));
            && end.tasks[i].pc == Answered(Error)
            && (end.tasks[j].pc.Running? <==> s.tasks[j].hash == s.tasks[i].hash)
            && (end.tasks[j].pc == Answered(Conflict) <==> s.tasks[j].hash != s.tasks[i].hash)
  {
    assert TaskOk(s, s.tasks[i]) && TaskOk(s, s.tasks[j]);
  }

  /** When not even the failure can be recorded, a retry runs exactly once the key's TTL has passed. */
  lemma UnrecordedFailureBlocks(s: System, i: nat, j: nat, ms: nat)
    requires i < |s.tasks| && j < |s.tasks| && i != j && Inv(s, s.tasks[i].key)
    requires s.tasks[i].pc.Failing? && s.tasks[j].pc.Beginning? && s.tasks[j].key == s.tasks[i].key
    ensures var end := Step(Step(Step(s, Local(i, Fail(Refused))), Tick(ms)), Local(j, Begin));
            end.tasks[j].pc.Running? <==> s.rows[s.tasks[i].key].expiresAt <= s.now + ms
  {
    assert TaskOk(s, s.tasks[i]);
  }

  // ------------------------------------------------------------------ a day

  /** Milliseconds that pass during a run. */
  function Elapsed(run: seq<Action>): nat
    decreases |run|
  {
    if run == [] then 0 else (if run[0].Tick? then run[0].ms else 0) + Elapsed(run[1..])
  }

  /** Every completion of the key is carried out and confirmed. */
  ghost predicate Recorded(s: System, run: seq<Action>, key: Key)
    decreases |run|
  {
    run == [] ||
    (&& (run[0].Local? && run[0].i < |s.tasks| && s.tasks[run[0].i].key == key && run[0].op.Complete? ==> run[0].op.reply == Stored)
     && Recorded(Step(s, run[0]), run[1..], key))
  }

  /** Every row lasts until at least `until`. */
  ghost predicate LastsUntil(s: System, until: int) {
    forall key :: key in s.rows ==> s.rows[key].expiresAt >= until
  }

  lemma StepLasts(s: System, a: Action)
    requires s.now >= 0 && LastsUntil(s, 24 * 60 * 60 * 1000)
    ensures LastsUntil(Step(s, a), 24 * 60 * 60 * 1000)
    ensures Step(s, a).now == s.now + if a.Tick? then a.ms else 0
  {
  }

  lemma {:induction false} LastingRunIsSafe(s: System, run: seq<Action>, key: Key)
    requires 0 <= s.now && s.now + Elapsed(run) < 24 * 60 * 60 * 1000 && LastsUntil(s, 24 * 60 * 60 * 1000)
    requires Recorded(s, run, key)
    ensures SafeRun(s, run, key)
    decreases |run|
  {
    if run == [] {
    } else {
      StepLasts(s, run[0]);
      LastingRunIsSafe(Step(s, run[0]), run[1..], key);
    }
  }

  /** A claim protects its key for a day: every run shorter than 24 hours, over any keys, in which the key's
      completions are recorded keeps to the premises of the guarantees. */
  lemma DayIsSafe(run: seq<Action>, key: Key)
    requires Elapsed(run) < 24 * 60 * 60 * 1000 && Recorded(EMPTY, run, key)
    ensures SafeRun(EMPTY, run, key)
  {
    LastingRunIsSafe(EMPTY, run, key);
  }

  lemma {:induction false} SplitRun(s: System, before: seq<Action>, after: seq<Action>, key: Key)
    requires SafeRun(s, before + after, key)
    ensures SafeRun(s, before, key) && SafeRun(Exec(s, before), after, key)
    decreases |before|
  {
    if before == [] {
      assert before + after == after;
    } else {
      assert (before + after)[1..] == before[1..] + after;
      SplitRun(Step(s, before[0]), before[1..], after, key);
    }
  }

  /** Within a day the handler succeeds for at most one request of the key. */
  lemma OneSuccessADay(run: seq<Action>, key: Key, i: nat, j: nat)
    requires Elapsed(run) < 24 * 60 * 60 * 1000 && Recorded(EMPTY, run, key)
    requires var end := Exec(EMPTY, run);
             && i < |end.tasks| && j < |end.tasks| && end.tasks[i].key == key && end.tasks[j].key == key
             && end.tasks[i].done && end.tasks[j].done
    ensures i == j
  {
    DayIsSafe(run, key);
    AtMostOneSuccess(run, key, i, j);
  }

  /** Within a day a request that comes after the success is given its response, or a conflict, and runs nothing. */
  lemma ReplaysForADay(before: seq<Action>, after: seq<Action>, i: nat, j: nat)
    requires i < |Exec(EMPTY, before).tasks| && Finished(Exec(EMPTY, before).tasks[i])
    requires Elapsed(before + after) < 24 * 60 * 60 * 1000
    requires Recorded(EMPTY, before + after, Exec(EMPTY, before).tasks[i].key)
    requires j < |Exec(EMPTY, before + after).tasks|
    requires Exec(EMPTY, before + after).tasks[j].key == Exec(EMPTY, before).tasks[i].key
    requires j < |Exec(EMPTY, before).tasks| ==> Exec(EMPTY, before).tasks[j].pc.Finding?
    ensures var first, t := Exec(EMPTY, before).tasks[i], Exec(EMPTY, before + after).tasks[j];
            && t.runs == 0
            && (t.hash == first.hash ==> t.pc.Finding? || t.pc.Beginning? || t.pc == Answered(Replayed(first.pc.answer.result)))
            && (t.hash != first.hash ==> t.pc.Finding? || t.pc == Answered(Conflict))
  {
    DayIsSafe(before + after, Exec(EMPTY, before).tasks[i].key);
    SplitRun(EMPTY, before, after, Exec(EMPTY, before).tasks[i].key);
    ReplaysTheResponse(before, after, i, j);
  }

  // ------------------------------------------------------------------ where the premises are needed

  /** When recording a completion fails, whether or not it was carried out, the key is re-opened: a retry with
      the same body, and only that, lets the handler succeed a second time. */
  lemma LostCompletionRunsAgain(s: System, i: nat, j: nat, lost: Reply, result: Result)
    requires i < |s.tasks| && j < |s.tasks| && i != j && Inv(s, s.tasks[i].key) && lost != Stored
    requires s.tasks[i].pc.Completing? && s.tasks[j].pc.Finding? && s.tasks[j].key == s.tasks[i].key
    ensures var reopened := Step(Step(s, Local(i, Complete(lost))), Local(i, Fail(Stored)));
            var end := Step(Step(Step(reopened, Local(j, Find)), Local(j, Begin)), Local(j, Succeed(result)));
            (end.tasks[i].done && end.tasks[j].done) <==> s.tasks[j].hash == s.tasks[i].hash
  {
    assert TaskOk(s, s.tasks[i]) && TaskOk(s, s.tasks[j]);
  }

  /** A second request runs the handler beside a first one exactly when the first has outlived its key. */
  lemma SecondRunIffExpired(s: System, i: nat, j: nat)
    requires i < |s.tasks| && j < |s.tasks| && i != j && Inv(s, s.tasks[i].key)
    requires Busy(s.tasks[i]) && s.tasks[j].pc.Beginning? && s.tasks[j].key == s.tasks[i].key
    ensures var end := Step(s, Local(j, Begin));
            (Busy(end.tasks[i]) && end.tasks[j].pc.Running?) <==> s.rows[s.tasks[i].key].expiresAt <= s.now
  {
    assert TaskOk(s, s.tasks[i]);
  }

  /** After a purge, a request for a completed key runs its handler exactly when the key's TTL has passed. */
  lemma PurgedRunsAgainIff(s: System, i: nat, j: nat)
    requires i < |s.tasks| && j < |s.tasks| && Inv(s, s.tasks[i].key)
    requires Finished(s.tasks[i]) && s.tasks[j].pc.Finding? && s.tasks[j].key == s.tasks[i].key
    ensures var end := Step(Step(Step(s, Purge), Local(j, Find)), Local(j, Begin));
            end.tasks[j].pc.Running? <==> s.rows[s.tasks[i].key].expiresAt < s.now
  {
    assert TaskOk(s, s.tasks[i]);
  }

  // ------------------------------------------------------------------ it happens

  lemma {:induction false} Trace(s: System, run: seq<Action>, states: seq<System>)
    requires |states| == |run| + 1 && states[0] == s
    requires forall k :: 0 <= k < |run| ==> states[k + 1] == Step(states[k], run[k])
    ensures Exec(s, run) == states[|run|]
    decreases |run|
  {
    if run == [] {
    } else {
      Trace(Step(s, run[0]), run[1..], states[1..]);
    }
  }

  /** From nothing: the first request's completion is refused, the retry succeeds again. */
  lemma TwoSuccessesHappen(key: Key, hash: Hash, result: Result)
    ensures var end := Exec(EMPTY, [Arrive(key, hash), Arrive(key, hash), Local(0, Find), Local(0, Begin),
                                    Local(0, Succeed(result)), Local(0, Complete(Refused)), Local(0, Fail(Stored)),
                                    Local(1, Find), Local(1, Begin), Local(1, Succeed(result))]);
            |end.tasks| == 2 && end.tasks[0].done && end.tasks[1].done
  {
    var t := NewTask(key, hash);
    var t1, t2 := t.(pc := Beginning), t.(pc := Running, runs := 1);
    var t3 := t2.(pc := Completing(result), done := true);
    var t4, t5 := t3.(pc := Failing), t3.(pc := Answered(Error));
    var taken := map[key := Row(InProgress, hash, None, TTL_MS)];
    var failed := map[key := Row(Failed, hash, None, TTL_MS)];
    Trace(EMPTY,
          [Arrive(key, hash), Arrive(key, hash), Local(0, Find), Local(0, Begin),
           Local(0, Succeed(result)), Local(0, Complete(Refused)), Local(0, Fail(Stored)),
           Local(1, Find), Local(1, Begin), Local(1, Succeed(result))],
          [EMPTY, System(0, map[], [t]), System(0, map[], [t, t]), System(0, map[], [t1, t]), System(0, taken, [t2, t]),
           System(0, taken, [t3, t]), System(0, taken, [t4, t]), System(0, failed, [t5, t]),
           System(0, failed, [t5, t1]), System(0, taken, [t5, t2]), System(0, taken, [t5, t3])]);
  }

  /** From nothing: the first request is still running when its key's TTL has passed, and a second one runs beside it. */
  lemma TwoRunsHappen(key: Key, hash: Hash)
    ensures var end := Exec(EMPTY, [Arrive(key, hash), Arrive(key, hash), Local(0, Find), Local(1, Find), Local(0, Begin),
                                    Tick(24 * 60 * 60 * 1000), Local(1, Begin)]);
            |end.tasks| == 2 && end.tasks[0].pc.Running? && end.tasks[1].pc.Running?
  {
    var t := NewTask(key, hash);
    var t1, t2 := t.(pc := Beginning), t.(pc := Running, runs := 1);
    var taken := map[key := Row(InProgress, hash, None, TTL_MS)];
    Trace(EMPTY,
          [Arrive(key, hash), Arrive(key, hash), Local(0, Find), Local(1, Find), Local(0, Begin), Tick(24 * 60 * 60 * 1000), Local(1, Begin)],
          [EMPTY, System(0, map[], [t]), System(0, map[], [t, t]), System(0, map[], [t1, t]), System(0, map[], [t1, t1]),
           System(0, taken, [t2, t1]), System(TTL_MS, taken, [t2, t1]),
           System(TTL_MS, map[key := Row(InProgress, hash, None, TTL_MS + TTL_MS)], [t2, t2])]);
  }
}
