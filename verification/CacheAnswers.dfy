/** What requests are answered: when with an error, otherwise with which value; and that a request left to
    itself does get its answer. Stated on the actions of a run and the program points they meet. */
module CacheAnswers {
  import opened CacheFlight
  import opened CacheIsolation
  import opened CacheKeys
  import opened CacheProtocol
  import opened CacheRuns
  import opened Optional
  import opened Redis

  // ------------------------------------------------------------------ errors

  /** The action makes request i fail: its factory throws, or its write is not confirmed, or is for a negative time. */
  predicate Fails(s: System, a: Action, i: nat) {
    a.Local? && a.i == i && i < |s.tasks| &&
    var t, o := s.tasks[i], s.tasks[i].request.options;
    || (t.fg.Running? && a.op == Finish(false, None))
    || (t.fg.Writing? && a.op.Write? && !a.op.background
        && (a.op.reply != Delivered || o.ttl + (if o.staleTtl > 0 then o.staleTtl else 0) < 0))
  }

  ghost predicate HasFailed(prefix: string, s: System, actions: seq<Action>, i: nat)
    requires s.versions != []
  {
    exists b :: 0 <= b < |actions| && Fails(Exec(prefix, s, actions[..b]), actions[b], i)
  }

  /** The request's own thread has failed. */
  predicate Failed(t: Task) {
    t.leader.None? && (t.fg.Releasing? || t.fg.Settled? || t.fg.Done?) && t.fg.out == Threw
  }

  lemma EarlyFailStep(prefix: string, s: System, i: nat, op: Op)
    requires s.versions != [] && i < |s.tasks| && TaskFlight(s, s.tasks[i])
    requires !op.Finish? && !op.Write? && !op.Release?
    ensures Failed(TurnOf(prefix, s, i, op).task) <==> Failed(s.tasks[i])
  {
  }

  lemma LateFailStep(prefix: string, s: System, i: nat, op: Op)
    requires s.versions != [] && i < |s.tasks| && TaskFlight(s, s.tasks[i])
    requires op.Finish? || op.Write? || op.Release?
    ensures Failed(TurnOf(prefix, s, i, op).task) <==> Failed(s.tasks[i]) || Fails(s, Local(i, op), i)
  {
  }

  lemma FailStep(prefix: string, s: System, a: Action, i: nat)
    requires s.versions != [] && FlightInv(s) && i < |s.tasks|
    ensures Failed(Step(prefix, s, a).tasks[i]) <==> Failed(s.tasks[i]) || Fails(s, a, i)
  {
    assert TaskFlight(s, s.tasks[i]);
    if a.Local? && a.i == i {
      if a.op.Finish? || a.op.Write? || a.op.Release? {
        LateFailStep(prefix, s, i, a.op);
      } else {
        EarlyFailStep(prefix, s, i, a.op);
      }
    }
  }

  lemma HistoryGrows(prefix: string, s: System, prior: seq<Action>, a: Action, i: nat)
    requires s.versions != []
    ensures HasFailed(prefix, s, prior + [a], i) <==> HasFailed(prefix, s, prior, i) || Fails(Exec(prefix, s, prior), a, i)
  {
    var actions := prior + [a];
    assert forall b :: 0 <= b <= |prior| ==> actions[..b] == prior[..b];
    assert prior[..|prior|] == prior;
    if HasFailed(prefix, s, prior, i) {
      var b :| 0 <= b < |prior| && Fails(Exec(prefix, s, prior[..b]), prior[b], i);
      assert Fails(Exec(prefix, s, actions[..b]), actions[b], i);
    }
    if Fails(Exec(prefix, s, prior), a, i) { assert Fails(Exec(prefix, s, actions[..|prior|]), actions[|prior|], i); }
  }

  /** A step adds at most one request, which has done nothing yet. */
  lemma TaskBefore(prefix: string, s: System, a: Action, i: nat)
    requires s.versions != []
    ensures |s.tasks| <= |Step(prefix, s, a).tasks|
    ensures |s.tasks| <= i < |Step(prefix, s, a).tasks| ==>
              Step(prefix, s, a).tasks[i].fg.NeedVersion? && Step(prefix, s, a).tasks[i].leader.None?
    ensures i < |s.tasks| && !(a.Local? && a.i == i) ==> Step(prefix, s, a).tasks[i] == s.tasks[i]
    ensures i < |s.tasks| && a.Local? && a.i == i ==> Step(prefix, s, a).tasks[i] == TurnOf(prefix, s, i, a.op).task
  {
  }

  ghost predicate FailAgrees(prefix: string, s: System, actions: seq<Action>, i: nat, end: System)
    requires s.versions != []
  {
    if i < |end.tasks| then Failed(end.tasks[i]) <==> HasFailed(prefix, s, actions, i) else !HasFailed(prefix, s, actions, i)
  }

  lemma {:induction false} FailHistory(prefix: string, s: System, actions: seq<Action>, i: nat)
    requires Initial(prefix, s)
    ensures FailAgrees(prefix, s, actions, i, Exec(prefix, s, actions))
  {
    if actions == [] {
    } else {
      var prior, a := actions[..|actions| - 1], actions[|actions| - 1];
      FailHistory(prefix, s, prior, i);
      RunKeepsFlight(prefix, s, prior);
      assert actions == prior + [a];
      FailAgreesStep(prefix, s, prior, a, i);
    }
  }

  lemma FailAgreesStep(prefix: string, s: System, prior: seq<Action>, a: Action, i: nat)
    requires s.versions != [] && FlightInv(Exec(prefix, s, prior))
    requires FailAgrees(prefix, s, prior, i, Exec(prefix, s, prior))
    ensures FailAgrees(prefix, s, prior + [a], i, Exec(prefix, s, prior + [a]))
  {
    ExecAppend(prefix, s, prior, a);
    HistoryGrows(prefix, s, prior, a, i);
    FailAgreesAfter(prefix, Exec(prefix, s, prior), a, i);
  }

  lemma FailAgreesAfter(prefix: string, s: System, a: Action, i: nat)
    requires s.versions != [] && FlightInv(s)
    ensures i < |s.tasks| ==> i < |Step(prefix, s, a).tasks|
                              && (Failed(Step(prefix, s, a).tasks[i]) <==> Failed(s.tasks[i]) || Fails(s, a, i))
    ensures i >= |s.tasks| ==> !Fails(s, a, i)
    ensures |s.tasks| <= i < |Step(prefix, s, a).tasks| ==> !Failed(Step(prefix, s, a).tasks[i])
  {
    TaskBefore(prefix, s, a, i);
    if i < |s.tasks| { FailStep(prefix, s, a, i); }
  }

  /** Who decides a request's answer: itself, or the request whose promise it joined. */
  function Author(t: Task, i: nat): nat { if t.leader.Some? then t.leader.value else i }

  /** In every interleaving, an answer is an error exactly if its author's factory threw, or its author's write was
      not confirmed or had a negative time to live. */
  lemma ThrewIff(prefix: string, s: System, actions: seq<Action>, i: nat)
    requires Initial(prefix, s) && i < |Exec(prefix, s, actions).tasks|
    requires var t := Exec(prefix, s, actions).tasks[i]; t.fg.Done? || (t.fg.Settled? && t.leader.None?)
    ensures var t := Exec(prefix, s, actions).tasks[i];
            t.fg.out == Threw <==> HasFailed(prefix, s, actions, Author(t, i))
  {
    var end := Exec(prefix, s, actions);
    var t := end.tasks[i];
    FailHistory(prefix, s, actions, Author(t, i));
    if t.leader.Some? {
      JoinersShareTheOutcome(prefix, s, actions, i);
      RunKeepsFlight(prefix, s, actions);
      assert TaskFlight(end, t);
    }
  }

  // ------------------------------------------------------------------ values

  /** The value a request's own thread has in hand, and whether it will be reported as a hit. */
  function InHand(t: Task): Option<(Value, bool)> {
    match t.fg
    case Classifying(found) => if found.Some? then Some((found.value.stored.v, true)) else None
    case Writing(_, v) => Some((v, false))
    case Releasing(_, out) => OfOutcome(t, out)
    case Settled(out) => OfOutcome(t, out)
    case Done(out) => OfOutcome(t, out)
    case _ => None
  }

  function OfOutcome(t: Task, out: Outcome): Option<(Value, bool)> {
    if t.leader.None? && out.Returned? then Some((out.entry.value, out.entry.hit)) else None
  }

  predicate Finds(s: System, key: string, v: Value) {
    var got: Option<Content> := Get(s.db, key, s.now);
    got.Some? && got.value.Envelope? && got.value.stored.v == v
  }

  /** The action brings request i a value: its factory makes it; or a read finds it under the key, a hit; or a
      poll of the waiting request finds it there. */
  predicate Brings(s: System, a: Action, i: nat, v: Value, hit: bool) {
    a.Local? && a.i == i && i < |s.tasks| &&
    var t := s.tasks[i];
    || (t.fg.Running? && !hit && a.op == Finish(false, Some(v.payload)) && v == Value(v.payload, i, t.fg.born))
    || (t.fg.Reading? && hit && a.op == Read(true) && Finds(s, t.key, v))
    || (t.fg.Waiting? && !hit && a.op == Poll(true) && Finds(s, t.key, v))
  }

  ghost predicate WasBrought(prefix: string, s: System, actions: seq<Action>, i: nat, v: Value, hit: bool)
    requires s.versions != []
  {
    exists b :: 0 <= b < |actions| && Brings(Exec(prefix, s, actions[..b]), actions[b], i, v, hit)
  }

  lemma EarlyHandStep(prefix: string, s: System, i: nat, op: Op, v: Value, hit: bool)
    requires s.versions != [] && i < |s.tasks| && TaskFlight(s, s.tasks[i])
    requires !op.Finish? && !op.Write? && !op.Release? && !op.Poll?
    requires InHand(TurnOf(prefix, s, i, op).task) == Some((v, hit))
    ensures InHand(s.tasks[i]) == Some((v, hit)) || Brings(s, Local(i, op), i, v, hit)
  {
  }

  lemma LateHandStep(prefix: string, s: System, i: nat, op: Op, v: Value, hit: bool)
    requires s.versions != [] && i < |s.tasks| && TaskFlight(s, s.tasks[i])
    requires op.Finish? || op.Write? || op.Release? || op.Poll?
    requires InHand(TurnOf(prefix, s, i, op).task) == Some((v, hit))
    ensures InHand(s.tasks[i]) == Some((v, hit)) || Brings(s, Local(i, op), i, v, hit)
  {
  }

  lemma BroughtAt(prefix: string, s: System, prior: seq<Action>, a: Action, b: nat, i: nat, v: Value, hit: bool)
    requires s.versions != [] && b < |prior| && Brings(Exec(prefix, s, prior[..b]), prior[b], i, v, hit)
    ensures WasBrought(prefix, s, prior + [a], i, v, hit)
  {
    var actions := prior + [a];
    assert actions[..b] == prior[..b] && actions[b] == prior[b];
    assert Brings(Exec(prefix, s, actions[..b]), actions[b], i, v, hit);
  }

  lemma BroughtStays(prefix: string, s: System, prior: seq<Action>, a: Action, i: nat, v: Value, hit: bool)
    requires s.versions != []
    requires WasBrought(prefix, s, prior, i, v, hit) || Brings(Exec(prefix, s, prior), a, i, v, hit)
    ensures WasBrought(prefix, s, prior + [a], i, v, hit)
  {
    var actions := prior + [a];
    assert actions[..|prior|] == prior && actions[|prior|] == a;
    if WasBrought(prefix, s, prior, i, v, hit) {
      var b :| 0 <= b < |prior| && Brings(Exec(prefix, s, prior[..b]), prior[b], i, v, hit);
      BroughtAt(prefix, s, prior, a, b, i, v, hit);
    }
  }

  lemma HandStep(prefix: string, s: System, a: Action, i: nat, v: Value, hit: bool)
    requires s.versions != [] && FlightInv(s)
    requires i < |Step(prefix, s, a).tasks| && InHand(Step(prefix, s, a).tasks[i]) == Some((v, hit))
    ensures i < |s.tasks| && (InHand(s.tasks[i]) == Some((v, hit)) || Brings(s, a, i, v, hit))
  {
    TaskBefore(prefix, s, a, i);
    assert TaskFlight(s, s.tasks[i]);
    if a.Local? && a.i == i {
      if a.op.Finish? || a.op.Write? || a.op.Release? || a.op.Poll? {
        LateHandStep(prefix, s, i, a.op, v, hit);
      } else {
        EarlyHandStep(prefix, s, i, a.op, v, hit);
      }
    }
  }

  lemma {:induction false} HandHistory(prefix: string, s: System, actions: seq<Action>, i: nat, v: Value, hit: bool)
    requires Initial(prefix, s) && i < |Exec(prefix, s, actions).tasks|
    requires InHand(Exec(prefix, s, actions).tasks[i]) == Some((v, hit))
    ensures WasBrought(prefix, s, actions, i, v, hit)
  {
    if actions == [] {
    } else {
      var prior, a := actions[..|actions| - 1], actions[|actions| - 1];
      var st := Exec(prefix, s, prior);
      RunKeepsFlight(prefix, s, prior);
      assert actions == prior + [a];
      HandStep(prefix, st, a, i, v, hit);
      if InHand(st.tasks[i]) == Some((v, hit)) { HandHistory(prefix, s, prior, i, v, hit); }
      BroughtStays(prefix, s, prior, a, i, v, hit);
    }
  }

  /** In every interleaving, a returned value was brought by a step of the answer's author: it is its factory's
      result, not reported as a hit; or what its read found under its key, reported as a hit; or what it found
      there while waiting for the lock, not reported as one. */
  lemma EveryAnswerHasASource(prefix: string, s: System, actions: seq<Action>, i: nat, e: Entry)
    requires Initial(prefix, s) && i < |Exec(prefix, s, actions).tasks|
    requires var t := Exec(prefix, s, actions).tasks[i];
             (t.fg.Done? || (t.fg.Settled? && t.leader.None?)) && t.fg.out == Returned(e)
    ensures WasBrought(prefix, s, actions, Author(Exec(prefix, s, actions).tasks[i], i), e.value, e.hit)
  {
    RunKeepsFlight(prefix, s, actions);
    AuthorHasIt(Exec(prefix, s, actions), i, e);
    HandHistory(prefix, s, actions, Author(Exec(prefix, s, actions).tasks[i], i), e.value, e.hit);
  }

  lemma AuthorHasIt(s: System, i: nat, e: Entry)
    requires FlightInv(s) && i < |s.tasks|
    requires var t := s.tasks[i]; (t.fg.Done? || (t.fg.Settled? && t.leader.None?)) && t.fg.out == Returned(e)
    ensures Author(s.tasks[i], i) < |s.tasks| && InHand(s.tasks[Author(s.tasks[i], i)]) == Some((e.value, e.hit))
  {
    assert TaskFlight(s, s.tasks[i]);
  }

  /** The request's factory has settled with a payload: whatever it returns is that payload. */
  predicate Bound(t: Task, i: nat, payload: Payload) {
    t.leader.None? &&
    match t.fg
    case Writing(_, v) => v.payload == payload && v.maker == i
    case Releasing(_, out) => Gives(out, i, payload)
    case Settled(out) => Gives(out, i, payload)
    case Done(out) => Gives(out, i, payload)
    case _ => false
  }

  predicate Gives(out: Outcome, i: nat, payload: Payload) {
    out.Returned? ==> out.entry.value.payload == payload && out.entry.value.maker == i && !out.entry.hit && !out.entry.stale
  }

  lemma BoundStep(prefix: string, s: System, i: nat, op: Op, payload: Payload)
    requires s.versions != [] && i < |s.tasks| && TaskFlight(s, s.tasks[i])
    requires Bound(s.tasks[i], i, payload) || (s.tasks[i].fg.Running? && op == Finish(false, Some(payload)))
    ensures Bound(TurnOf(prefix, s, i, op).task, i, payload)
  {
    if op.Finish? {
      FinishBinds(prefix, s, i, op, payload);
    } else if op.Write? || op.Release? {
      LateBoundStep(prefix, s, i, op, payload);
    } else {
      EarlyBoundStep(prefix, s, i, op, payload);
    }
  }

  lemma EarlyBoundStep(prefix: string, s: System, i: nat, op: Op, payload: Payload)
    requires s.versions != [] && i < |s.tasks| && TaskFlight(s, s.tasks[i]) && Bound(s.tasks[i], i, payload)
    requires !op.Finish? && !op.Write? && !op.Release?
    ensures Bound(TurnOf(prefix, s, i, op).task, i, payload)
  {
  }

  lemma LateBoundStep(prefix: string, s: System, i: nat, op: Op, payload: Payload)
    requires s.versions != [] && i < |s.tasks| && TaskFlight(s, s.tasks[i])
    requires (op.Write? || op.Release?) && Bound(s.tasks[i], i, payload)
    ensures Bound(TurnOf(prefix, s, i, op).task, i, payload)
  {
  }

  lemma FinishBinds(prefix: string, s: System, i: nat, op: Op, payload: Payload)
    requires s.versions != [] && i < |s.tasks| && TaskFlight(s, s.tasks[i]) && op.Finish?
    requires Bound(s.tasks[i], i, payload) || (s.tasks[i].fg.Running? && op == Finish(false, Some(payload)))
    ensures Bound(TurnOf(prefix, s, i, op).task, i, payload)
  {
  }

  /** In every interleaving, a request whose own factory settles with a payload is answered with that payload, as
      a miss, or with an error. */
  lemma {:induction false} AnswersTheFactory(prefix: string, s: System, actions: seq<Action>, b: nat, i: nat, payload: Payload)
    requires Initial(prefix, s) && b < |actions| && actions[b] == Local(i, Finish(false, Some(payload)))
    requires i < |Exec(prefix, s, actions[..b]).tasks| && Exec(prefix, s, actions[..b]).tasks[i].fg.Running?
    ensures i < |Exec(prefix, s, actions).tasks| && Bound(Exec(prefix, s, actions).tasks[i], i, payload)
  {
    var prior, a := actions[..|actions| - 1], actions[|actions| - 1];
    RunKeepsFlight(prefix, s, prior);
    if b < |prior| {
      assert prior[..b] == actions[..b];
      AnswersTheFactory(prefix, s, prior, b, i, payload);
    }
    BoundAfter(prefix, Exec(prefix, s, prior), a, i, payload);
  }

  lemma BoundAfter(prefix: string, s: System, a: Action, i: nat, payload: Payload)
    requires s.versions != [] && FlightInv(s) && i < |s.tasks|
    requires Bound(s.tasks[i], i, payload) || (s.tasks[i].fg.Running? && a == Local(i, Finish(false, Some(payload))))
    ensures i < |Step(prefix, s, a).tasks| && Bound(Step(prefix, s, a).tasks[i], i, payload)
  {
    TaskBefore(prefix, s, a, i);
    assert TaskFlight(s, s.tasks[i]);
    if a.Local? && a.i == i { BoundStep(prefix, s, i, a.op, payload); }
  }

  // ------------------------------------------------------------------ evicting requests

  /** The awaited handler of evicting request i ends, by a result or by an error. */
  predicate Ends(s: System, a: Action, i: nat, ok: bool) {
    a == Local(i, HandlerEnds(ok)) && i < |s.tasks| && s.tasks[i].fg.Handling?
  }

  ghost predicate HandlerEnded(prefix: string, s: System, actions: seq<Action>, i: nat, ok: bool)
    requires s.versions != []
  {
    exists b :: 0 <= b < |actions| && Ends(Exec(prefix, s, actions[..b]), actions[b], i, ok)
  }

  predicate KnowsEnd(t: Task, ok: bool) { t.fg == Evicted(ok) || (ok && t.fg == Evicting) }

  lemma EndedAt(prefix: string, s: System, prior: seq<Action>, a: Action, b: nat, i: nat, ok: bool)
    requires s.versions != [] && b < |prior| && Ends(Exec(prefix, s, prior[..b]), prior[b], i, ok)
    ensures HandlerEnded(prefix, s, prior + [a], i, ok)
  {
    var actions := prior + [a];
    assert actions[..b] == prior[..b] && actions[b] == prior[b];
    assert Ends(Exec(prefix, s, actions[..b]), actions[b], i, ok);
  }

  lemma EndStays(prefix: string, s: System, prior: seq<Action>, a: Action, i: nat, ok: bool)
    requires s.versions != []
    requires HandlerEnded(prefix, s, prior, i, ok) || Ends(Exec(prefix, s, prior), a, i, ok)
    ensures HandlerEnded(prefix, s, prior + [a], i, ok)
  {
    var actions := prior + [a];
    assert actions[..|prior|] == prior && actions[|prior|] == a;
    if HandlerEnded(prefix, s, prior, i, ok) {
      var b :| 0 <= b < |prior| && Ends(Exec(prefix, s, prior[..b]), prior[b], i, ok);
      EndedAt(prefix, s, prior, a, b, i, ok);
    }
  }

  lemma EndStep(prefix: string, s: System, a: Action, i: nat, ok: bool)
    requires s.versions != [] && FlightInv(s)
    requires i < |Step(prefix, s, a).tasks| && KnowsEnd(Step(prefix, s, a).tasks[i], ok)
    ensures i < |s.tasks| && (KnowsEnd(s.tasks[i], ok) || Ends(s, a, i, ok))
  {
    TaskBefore(prefix, s, a, i);
    assert TaskFlight(s, s.tasks[i]);
    if a.Local? && a.i == i { EndTurn(prefix, s, i, a.op, ok); }
  }

  lemma EndTurn(prefix: string, s: System, i: nat, op: Op, ok: bool)
    requires s.versions != [] && i < |s.tasks| && KindOk(s.tasks[i]) && KnowsEnd(TurnOf(prefix, s, i, op).task, ok)
    ensures KnowsEnd(s.tasks[i], ok) || Ends(s, Local(i, op), i, ok)
  {
  }

  /** An evicting request is answered as its handler ended, however its evictions went. */
  lemma {:induction false} EvictionAnswersTheHandler(prefix: string, s: System, actions: seq<Action>, i: nat, ok: bool)
    requires Initial(prefix, s) && i < |Exec(prefix, s, actions).tasks|
    requires KnowsEnd(Exec(prefix, s, actions).tasks[i], ok)
    ensures HandlerEnded(prefix, s, actions, i, ok)
  {
    if actions == [] {
    } else {
      var prior, a := actions[..|actions| - 1], actions[|actions| - 1];
      var st := Exec(prefix, s, prior);
      RunKeepsFlight(prefix, s, prior);
      assert actions == prior + [a];
      EndStep(prefix, st, a, i, ok);
      if KnowsEnd(st.tasks[i], ok) { EvictionAnswersTheHandler(prefix, s, prior, i, ok); }
      EndStays(prefix, s, prior, a, i, ok);
    }
  }
}
