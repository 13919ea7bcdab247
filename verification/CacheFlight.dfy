/** Single flight: one resolution per key and instance, shared by everybody who asks meanwhile; and a
    request's handler runs at most once, background refresh included. */
module CacheFlight {
  import opened CacheProtocol
  import opened Optional

  function Slot(t: Task): (nat, string) { (t.request.instance, t.key) }

  /** The request whose promise the instance's map holds. */
  predicate Leading(t: Task) {
    && !t.request.kind.Bypass?
    && (t.fg.Reading? || t.fg.Classifying? || t.fg.WantLock? || t.fg.Waiting? || t.fg.Running?
        || t.fg.Writing? || t.fg.Releasing? || t.fg.Settled?)
  }

  predicate Answered(t: Task, out: Outcome) {
    (t.fg.Settled? || t.fg.Done?) && t.fg.out == out
  }

  /** How often the handler can have run, point by point. */
  predicate RunsOk(t: Task) {
    match t.fg
    case Off => false
    case NeedVersion => t.runs == 0 && t.bg.Off?
    case Handling => t.runs == 1 && t.bg.Off?
    case Evicting => t.runs == 1 && t.bg.Off?
    case Evicted(_) => t.runs == 1 && t.bg.Off?
    case Keyed => t.runs == 0 && t.bg.Off?
    case Joined => t.runs == 0 && t.bg.Off?
    case Reading => t.runs == 0 && t.bg.Off?
    case Classifying(_) => t.runs == 0 && t.bg.Off?
    case WantLock => t.runs == 0 && t.bg.Off?
    case Waiting(_) => t.runs == 0 && t.bg.Off?
    case Running(_, _, _) => t.runs == 1 && t.bg.Off?
    case Writing(_, _) => t.runs == 1 && t.bg.Off?
    case Releasing(_, _) => t.runs == 1 && t.bg.Off?
    case _ => // settled or done
      match t.bg
      case Off => t.runs <= 1
      case WantLock => t.runs == 0
      case Running(_, _, _) => t.runs == 1
      case Writing(_, _) => t.runs == 1
      case Releasing(_, _) => t.runs == 1
      case Done(_) => t.runs == 1
      case _ => false
  }

  ghost predicate FollowOk(s: System, t: Task) {
    t.leader.Some? ==>
      && t.leader.value < |s.tasks|
      && !s.tasks[t.leader.value].request.kind.Bypass?
      && s.tasks[t.leader.value].Keyed() && Slot(s.tasks[t.leader.value]) == Slot(t)
      && (Leading(s.tasks[t.leader.value]) || s.tasks[t.leader.value].fg.Done?)
      && s.tasks[t.leader.value].leader.None?
      && t.bg.Off? && t.runs == 0
      && (t.fg.Joined? || (t.fg.Done? && Answered(s.tasks[t.leader.value], t.fg.out)))
  }

  /** A bypass request goes from its key straight to its handler and leaves the map alone; an evicting one
      never has a key. */
  predicate KindOk(t: Task) {
    match t.request.kind
    case Cached => !t.Keyed() ==> t.fg.NeedVersion?
    case Bypass =>
      && t.leader.None? && t.bg.Off?
      && (t.fg.NeedVersion? || t.fg.Keyed? || t.fg.Running? || t.fg.Writing? || t.fg.Releasing? || t.fg.Done?)
    case Evict => !t.Keyed()
  }

  ghost predicate MapOk(s: System) {
    && (forall i :: 0 <= i < |s.tasks| && Leading(s.tasks[i]) ==>
          Slot(s.tasks[i]) in s.inflight && s.inflight[Slot(s.tasks[i])] == i)
    && (forall slot :: slot in s.inflight ==>
          && s.inflight[slot] < |s.tasks|
          && Leading(s.tasks[s.inflight[slot]])
          && Slot(s.tasks[s.inflight[slot]]) == slot)
  }

  ghost predicate TaskFlight(s: System, t: Task) {
    && RunsOk(t) && KindOk(t) && FollowOk(s, t)
    && (t.fg.Joined? ==> t.leader.Some?)
    && (!t.Keyed() || t.fg.Keyed? ==> t.leader.None?)
  }

  ghost predicate FlightInv(s: System) {
    (forall i :: 0 <= i < |s.tasks| ==> TaskFlight(s, s.tasks[i])) && MapOk(s)
  }

  // ------------------------------------------------------------------ what one step can do

  /** A step either leaves the map alone and the request as leading as it was, or makes it the leader of a
      free slot, or ends its lead and frees the slot. Answers are final. */
  ghost predicate MapMove(t: Task, t': Task, m: map<(nat, string), nat>, m': map<(nat, string), nat>, i: nat) {
    || (Leading(t') == Leading(t) && m' == m)
    || (t.fg.Keyed? && Leading(t') && Slot(t) !in m && m' == m[Slot(t) := i])
    || (Leading(t) && t'.fg.Done? && m' == m - {Slot(t)})
  }

  ghost predicate LocalMove(s: System, t: Task, turn: Turn, i: nat) {
    && t.request == turn.task.request
    && (t.Keyed() ==> turn.task.Keyed() && turn.task.key == t.key)
    && RunsOk(turn.task) && KindOk(turn.task)
    && MapMove(t, turn.task, s.inflight, turn.inflight, i)
    && (t.fg.Done? ==> turn.task.fg == t.fg)
    && (t.fg.Settled? ==> turn.task.fg == t.fg || turn.task.fg == Done(t.fg.out))
  }

  /** Where a request's leader comes from. */
  ghost predicate LeaderMove(s: System, t: Task, t': Task) {
    || (t'.leader == t.leader && (t'.fg.Joined? ==> t.fg.Joined?)
        && (t'.leader.None? || t' == t
            || (t.fg.Joined? && t'.fg.Done? && t' == t.(fg := t'.fg)
                && t.leader.value < |s.tasks| && Answered(s.tasks[t.leader.value], t'.fg.out))))
    || (t.fg.Keyed? && !t.request.kind.Bypass? && Slot(t) in s.inflight
        && t' == t.(fg := Joined, leader := Some(s.inflight[Slot(t)])))
  }

  ghost predicate MoveOk(prefix: string, s: System, i: nat, op: Op)
    requires s.versions != [] && i < |s.tasks|
  {
    var turn := TurnOf(prefix, s, i, op);
    LocalMove(s, s.tasks[i], turn, i) && LeaderMove(s, s.tasks[i], turn.task)
  }

  lemma EarlyMoves(prefix: string, s: System, i: nat, op: Op)
    requires s.versions != [] && i < |s.tasks| && TaskFlight(s, s.tasks[i])
    requires op.ReadVersion? || op.Read? || op.Classify?
    ensures MoveOk(prefix, s, i, op)
  {
  }

  lemma EnterMoves(prefix: string, s: System, i: nat)
    requires s.versions != [] && i < |s.tasks| && TaskFlight(s, s.tasks[i])
    ensures MoveOk(prefix, s, i, Enter)
  {
  }

  lemma AcquireMoves(prefix: string, s: System, i: nat, op: Op)
    requires s.versions != [] && i < |s.tasks| && TaskFlight(s, s.tasks[i])
    requires op.Acquire?
    ensures MoveOk(prefix, s, i, op)
  {
  }

  lemma PollMoves(prefix: string, s: System, i: nat, op: Op)
    requires s.versions != [] && i < |s.tasks| && TaskFlight(s, s.tasks[i])
    requires op.Poll?
    ensures MoveOk(prefix, s, i, op)
  {
  }

  /** A thread past its factory's start: ending it, or passing it on to its write or release. */
  lemma BusyMoves(s: System, i: nat, background: bool, t': Task, db: Db)
    requires i < |s.tasks| && TaskFlight(s, s.tasks[i])
    requires var t, pc' := s.tasks[i], t'.Pc(background); var pc := t.Pc(background);
             && (pc.Running? || pc.Writing? || pc.Releasing?)
             && (|| ((pc'.Writing? || pc'.Releasing?) && t' == t.At(background, pc'))
                 || ((pc'.Settled? || pc'.Done?) && t' == Conclude(t, background, pc'.out)))
    ensures LocalMove(s, s.tasks[i], Turn(t', db, s.inflight), i)
    ensures LeaderMove(s, s.tasks[i], t')
  {
  }

  lemma FinishMoves(prefix: string, s: System, i: nat, op: Op)
    requires s.versions != [] && i < |s.tasks| && TaskFlight(s, s.tasks[i])
    requires op.Finish? || op.Write? || op.Release?
    ensures MoveOk(prefix, s, i, op)
  {
    var pc, turn := s.tasks[i].Pc(op.background), TurnOf(prefix, s, i, op);
    if (op.Finish? && pc.Running?) || (op.Write? && pc.Writing?) || (op.Release? && pc.Releasing?) {
      BusyMoves(s, i, op.background, turn.task, turn.db);
    }
  }

  lemma LateMoves(prefix: string, s: System, i: nat, op: Op)
    requires s.versions != [] && i < |s.tasks| && TaskFlight(s, s.tasks[i])
    requires op.Cleanup? || op.Follow?
    ensures MoveOk(prefix, s, i, op)
  {
  }

  lemma EvictMoves(prefix: string, s: System, i: nat, op: Op)
    requires s.versions != [] && i < |s.tasks| && TaskFlight(s, s.tasks[i])
    requires op.Handle? || op.HandlerEnds? || op.EvictionEnds?
    ensures MoveOk(prefix, s, i, op)
  {
  }

  lemma Moves(prefix: string, s: System, i: nat, op: Op)
    requires s.versions != [] && FlightInv(s) && i < |s.tasks|
    ensures MoveOk(prefix, s, i, op)
  {
    assert TaskFlight(s, s.tasks[i]);
    match op
    case Enter => EnterMoves(prefix, s, i);
    case Acquire(_, _) => AcquireMoves(prefix, s, i, op);
    case Poll(_) => PollMoves(prefix, s, i, op);
    case Finish(_, _) => FinishMoves(prefix, s, i, op);
    case Write(_, _) => FinishMoves(prefix, s, i, op);
    case Release(_, _) => FinishMoves(prefix, s, i, op);
    case Cleanup => LateMoves(prefix, s, i, op);
    case Follow => LateMoves(prefix, s, i, op);
    case Handle => EvictMoves(prefix, s, i, op);
    case HandlerEnds(_) => EvictMoves(prefix, s, i, op);
    case EvictionEnds => EvictMoves(prefix, s, i, op);
    case _ => EarlyMoves(prefix, s, i, op);
  }

  // ------------------------------------------------------------------ the invariant is kept

  lemma FollowKept(s: System, s': System, i: nat, j: nat)
    requires FlightInv(s) && i < |s.tasks| && j < |s.tasks| && |s'.tasks| == |s.tasks|
    requires forall k :: 0 <= k < |s.tasks| && k != i ==> s'.tasks[k] == s.tasks[k]
    requires LocalMove(s, s.tasks[i], Turn(s'.tasks[i], s'.db, s'.inflight), i)
    requires LeaderMove(s, s.tasks[i], s'.tasks[i])
    ensures FollowOk(s', s'.tasks[j])
  {
    var t, t' := s.tasks[j], s'.tasks[j];
    assert TaskFlight(s, t);
    if t'.leader.Some? {
      var l := t'.leader.value;
      assert l < |s.tasks| && !s.tasks[l].request.kind.Bypass? && s.tasks[l].Keyed() && Slot(s.tasks[l]) == Slot(t);
      assert TaskFlight(s, s.tasks[l]);
    }
  }

  lemma MapKept(s: System, s': System, i: nat)
    requires MapOk(s) && i < |s.tasks| && |s'.tasks| == |s.tasks|
    requires forall k :: 0 <= k < |s.tasks| && k != i ==> s'.tasks[k] == s.tasks[k]
    requires LocalMove(s, s.tasks[i], Turn(s'.tasks[i], s'.db, s'.inflight), i)
    ensures MapOk(s')
  {
    var t := s.tasks[i];
    assert Leading(t) ==> t.Keyed() && !t.fg.Keyed?;
    forall j | 0 <= j < |s'.tasks| && Leading(s'.tasks[j])
      ensures Slot(s'.tasks[j]) in s'.inflight && s'.inflight[Slot(s'.tasks[j])] == j
    {
    }
  }

  lemma LocalKeepsFlight(prefix: string, s: System, i: nat, op: Op)
    requires s.versions != [] && FlightInv(s) && i < |s.tasks|
    ensures FlightInv(Step(prefix, s, Local(i, op)))
  {
    var s' := Step(prefix, s, Local(i, op));
    Moves(prefix, s, i, op);
    MapKept(s, s', i);
    forall j | 0 <= j < |s'.tasks|
      ensures TaskFlight(s', s'.tasks[j])
    {
      assert TaskFlight(s, s.tasks[j]);
      FollowKept(s, s', i, j);
    }
  }

  lemma ArriveKeepsFlight(s: System, s': System, r: Request)
    requires FlightInv(s) && s'.tasks == s.tasks + [NewTask(r)] && s'.inflight == s.inflight
    ensures FlightInv(s')
  {
    forall j | 0 <= j < |s'.tasks|
      ensures TaskFlight(s', s'.tasks[j])
    {
      if j < |s.tasks| { assert TaskFlight(s, s.tasks[j]); }
    }
  }

  lemma ElsewhereKeepsFlight(s: System, s': System)
    requires FlightInv(s) && s'.tasks == s.tasks && s'.inflight == s.inflight
    ensures FlightInv(s')
  {
    forall j | 0 <= j < |s'.tasks|
      ensures TaskFlight(s', s'.tasks[j])
    {
      assert TaskFlight(s, s.tasks[j]);
    }
  }

  lemma StepKeepsFlight(prefix: string, s: System, a: Action)
    requires s.versions != [] && FlightInv(s)
    ensures FlightInv(Step(prefix, s, a))
  {
    var s' := Step(prefix, s, a);
    match a
    case Arrive(r) => ArriveKeepsFlight(s, s', r);
    case Local(i, op) => if i < |s.tasks| { LocalKeepsFlight(prefix, s, i, op); } else { ElsewhereKeepsFlight(s, s'); }
    case _ => ElsewhereKeepsFlight(s, s');
  }

  lemma {:induction false} RunKeepsFlight(prefix: string, s: System, actions: seq<Action>)
    requires Initial(prefix, s)
    ensures FlightInv(Exec(prefix, s, actions))
  {
    if actions == [] {
    } else {
      RunKeepsFlight(prefix, s, actions[..|actions| - 1]);
      StepKeepsFlight(prefix, Exec(prefix, s, actions[..|actions| - 1]), actions[|actions| - 1]);
    }
  }

  // ------------------------------------------------------------------ guarantees

  /** At every moment an instance resolves a key at most once, and its map holds exactly the keys being resolved. */
  lemma SingleFlight(prefix: string, s: System, actions: seq<Action>, i: nat, j: nat)
    requires Initial(prefix, s)
    requires var end := Exec(prefix, s, actions);
             && i < |end.tasks| && j < |end.tasks| && Leading(end.tasks[i]) && Leading(end.tasks[j])
             && Slot(end.tasks[i]) == Slot(end.tasks[j])
    ensures i == j
  {
    RunKeepsFlight(prefix, s, actions);
  }

  lemma MapHoldsWhatIsResolving(prefix: string, s: System, actions: seq<Action>, slot: (nat, string))
    requires Initial(prefix, s)
    ensures var end := Exec(prefix, s, actions);
            slot in end.inflight <==> exists i :: 0 <= i < |end.tasks| && Leading(end.tasks[i]) && Slot(end.tasks[i]) == slot
  {
    RunKeepsFlight(prefix, s, actions);
    var end := Exec(prefix, s, actions);
    if slot in end.inflight { assert Leading(end.tasks[end.inflight[slot]]); }
  }

  /** A request that joined another's promise answers with that promise's one outcome, and never runs its own handler. */
  lemma JoinersShareTheOutcome(prefix: string, s: System, actions: seq<Action>, i: nat)
    requires Initial(prefix, s)
    requires var end := Exec(prefix, s, actions); i < |end.tasks| && end.tasks[i].leader.Some? && end.tasks[i].fg.Done?
    ensures var end := Exec(prefix, s, actions);
            && end.tasks[i].leader.value < |end.tasks|
            && Answered(end.tasks[end.tasks[i].leader.value], end.tasks[i].fg.out)
            && end.tasks[i].runs == 0
  {
    RunKeepsFlight(prefix, s, actions);
    assert FollowOk(Exec(prefix, s, actions), Exec(prefix, s, actions).tasks[i]);
  }

  /** On every path (hit, stale hit with refresh, miss, lock wait, bypass, evict) the handler runs at most once,
      background refresh included; an evicting request has run it, once, when it answers. */
  lemma HandlerRunsAtMostOnce(prefix: string, s: System, actions: seq<Action>, i: nat)
    requires Initial(prefix, s) && i < |Exec(prefix, s, actions).tasks|
    ensures var t := Exec(prefix, s, actions).tasks[i]; t.runs <= 1 && (t.fg.Evicted? ==> t.runs == 1)
  {
    RunKeepsFlight(prefix, s, actions);
    assert TaskFlight(Exec(prefix, s, actions), Exec(prefix, s, actions).tasks[i]);
  }
}
