/** The hooks that a pipeline asks of its nodes: which, in which order, and what they answer. */
module HookCalls {
  import opened Statuses
  import opened Graph

  datatype Hook = OnPrepare | OnStart | OnTick | OnStop | OnReset

  datatype HookCall = HookCall(id: Id, hook: Hook, answer: StatusCode)

  /** The hooks of the derived nodes: each may answer any status at any time, and every call is recorded. */
  class NodeHooks {
    ghost var calls: seq<HookCall>

    constructor ()
      ensures calls == []
    {
      calls := [];
    }

    method Ask(id: Id, hook: Hook) returns (answer: StatusCode)
      modifies this
      ensures calls == old(calls) + [HookCall(id, hook, answer)]
    {
      answer := *;
      calls := calls + [HookCall(id, hook, answer)];
    }
  }

  /** After this answer the next node is asked. */
  predicate Passes(hook: Hook, answer: StatusCode) {
    match hook
    case OnTick => Benign(answer)
    case OnStop => answer.OkStatus? || answer.EndOfStream?
    case _ => answer.OkStatus?
  }

  /** The first of these nodes were asked, in this order, and all of them passed. */
  predicate PassedSoFar(ids: seq<Id>, hook: Hook, made: seq<HookCall>) {
    && |made| <= |ids|
    && forall k :: 0 <= k < |made| ==> made[k].id == ids[k] && made[k].hook == hook && Passes(hook, made[k].answer)
  }

  /** The last node that was asked was the first one not to pass. */
  predicate EndedBy(ids: seq<Id>, hook: Hook, made: seq<HookCall>, answer: StatusCode) {
    && 0 < |made| <= |ids| && PassedSoFar(ids, hook, made[..|made| - 1])
    && made[|made| - 1] == HookCall(ids[|made| - 1], hook, answer) && !Passes(hook, answer)
  }

  /** The nodes were asked in turn: all of them, or up to the one whose answer is the status. */
  predicate AskedInTurn(ids: seq<Id>, hook: Hook, made: seq<HookCall>, status: StatusCode) {
    if status.OkStatus? then PassedSoFar(ids, hook, made) && |made| == |ids| else EndedBy(ids, hook, made, status)
  }

  lemma NothingAsked(ids: seq<Id>, hook: Hook)
    ensures PassedSoFar(ids, hook, [])
  {
  }

  /** A node that did not pass was asked, so it was not a turn in which all passed. */
  lemma NotBoth(ids: seq<Id>, hook: Hook, made: seq<HookCall>, answer: StatusCode)
    requires EndedBy(ids, hook, made, answer)
    ensures !AskedInTurn(ids, hook, made, OkStatus)
  {
  }

  lemma OnePasses(ids: seq<Id>, hook: Hook, made: seq<HookCall>, answer: StatusCode)
    requires PassedSoFar(ids, hook, made) && |made| < |ids| && Passes(hook, answer)
    ensures PassedSoFar(ids, hook, made + [HookCall(ids[|made|], hook, answer)])
  {
  }

  lemma OneEnds(ids: seq<Id>, hook: Hook, made: seq<HookCall>, answer: StatusCode)
    requires PassedSoFar(ids, hook, made) && |made| < |ids| && !Passes(hook, answer)
    ensures EndedBy(ids, hook, made + [HookCall(ids[|made|], hook, answer)], answer)
  {
    assert (made + [HookCall(ids[|made|], hook, answer)])[..|made|] == made;
  }

  /** One node was stopped and then reset. */
  predicate Undone(id: Id, made: seq<HookCall>) {
    && |made| == 2 && made[0].id == made[1].id == id && made[0].hook.OnStop? && made[1].hook.OnReset?
  }

  /** Every node was stopped and then reset, last node first. */
  predicate RolledBack(ids: seq<Id>, made: seq<HookCall>) {
    if ids == [] then made == []
    else
      |made| >= 2 && Undone(ids[|ids| - 1], made[..2]) && RolledBack(ids[..|ids| - 1], made[2..])
  }

  lemma NothingUndone()
    ensures RolledBack([], [])
  {
  }

  lemma {:induction false} RollsBackBefore(ids: seq<Id>, made: seq<HookCall>, id: Id, more: seq<HookCall>)
    requires RolledBack(ids, made) && Undone(id, more)
    ensures RolledBack([id] + ids, made + more)
  {
    var all, calls := [id] + ids, made + more;
    if ids == [] {
      assert calls == more && calls[..2] == more && calls[2..] == [] && all[..0] == [];
    } else {
      RollsBackBefore(ids[..|ids| - 1], made[2..], id, more);
      assert all[..|all| - 1] == [id] + ids[..|ids| - 1];
      assert calls[..2] == made[..2] && calls[2..] == made[2..] + more;
    }
  }

  lemma RollsBackOneMore(ids: seq<Id>, i: nat, made: seq<HookCall>, more: seq<HookCall>)
    requires i < |ids| && RolledBack(ids[i + 1..], made) && Undone(ids[i], more)
    ensures RolledBack(ids[i..], made + more)
  {
    RollsBackBefore(ids[i + 1..], made, ids[i], more);
    assert ids[i..] == [ids[i]] + ids[i + 1..];
  }

  function Answers(made: seq<HookCall>): seq<StatusCode> {
    seq(|made|, k requires 0 <= k < |made| => made[k].answer)
  }

  /** What resetting nodes, last first, asks of them: nothing of a node that is created already. */
  function Resets(ids: seq<Id>, created: seq<bool>, answers: seq<StatusCode>): seq<HookCall>
    requires |ids| == |created| && |answers| <= |ids|
  {
    if answers == [] then []
    else
      var last := |answers| - 1;
      var k := |ids| - 1 - last;
      Resets(ids, created, answers[..last]) + if created[k] then [] else [HookCall(ids[k], OnReset, answers[last])]
  }

  lemma NothingReset(ids: seq<Id>, created: seq<bool>)
    requires |ids| == |created|
    ensures Resets(ids, created, []) == []
  {
  }

  lemma ResetsOneMore(ids: seq<Id>, created: seq<bool>, answers: seq<StatusCode>, answer: StatusCode)
    requires |ids| == |created| && |answers| < |ids|
    ensures var k := |ids| - 1 - |answers|;
            Resets(ids, created, answers + [answer])
              == if created[k] then Resets(ids, created, answers)
                 else Resets(ids, created, answers) + [HookCall(ids[k], OnReset, answer)]
  {
    var all, made := answers + [answer], Resets(ids, created, answers);
    assert all[..|all| - 1] == answers && all[|all| - 1] == answer;
    assert made + [] == made;
  }

  /** Every node was asked to reset, last first. */
  predicate AllReset(ids: seq<Id>, made: seq<HookCall>) {
    |made| == |ids| && forall k :: 0 <= k < |made| ==> made[k].id == ids[|ids| - 1 - k] && made[k].hook.OnReset?
  }

  lemma {:induction false} NoneSpared(ids: seq<Id>, created: seq<bool>, answers: seq<StatusCode>)
    requires |ids| == |created| && |answers| <= |ids| && forall k :: 0 <= k < |ids| ==> !created[k]
    ensures var made := Resets(ids, created, answers);
            && |made| == |answers|
            && forall k :: 0 <= k < |made| ==> made[k] == HookCall(ids[|ids| - 1 - k], OnReset, answers[k])
  {
    if answers != [] {
      NoneSpared(ids, created, answers[..|answers| - 1]);
    }
  }

  /** Exactly the nodes of `active` were asked to reset, each once, and the first failure is the status. */
  predicate ResetOnce(active: set<Id>, made: seq<HookCall>, status: StatusCode) {
    && (forall k :: 0 <= k < |made| ==> made[k].hook.OnReset? && made[k].id in active)
    && (forall id :: id in active ==> exists k :: 0 <= k < |made| && made[k].id == id)
    && (forall j, k :: 0 <= j < k < |made| ==> made[j].id != made[k].id)
    && status == FirstFailure(Answers(made))
  }

  lemma OneMoreCall(made: seq<HookCall>, c: HookCall)
    ensures FirstFailure(Answers(made + [c])) == RecordFirst(FirstFailure(Answers(made)), c.answer)
  {
    assert Answers(made + [c]) == Answers(made) + [c.answer];
    OneMoreAnswer(Answers(made), c.answer);
  }

  /** The ids of the nodes from place `i` on that are not created. */
  function ActiveFrom(ids: seq<Id>, created: seq<bool>, i: nat): set<Id>
    requires |ids| == |created| && i <= |ids|
  {
    set k | i <= k < |ids| && !created[k] :: ids[k]
  }

  lemma ActiveOneMore(ids: seq<Id>, created: seq<bool>, i: nat)
    requires |ids| == |created| && i < |ids| && Distinct(ids)
    ensures ActiveFrom(ids, created, i)
         == if created[i] then ActiveFrom(ids, created, i + 1) else ActiveFrom(ids, created, i + 1) + {ids[i]}
    ensures ids[i] !in ActiveFrom(ids, created, i + 1)
  {
  }

  lemma ResetOneMore(active: set<Id>, made: seq<HookCall>, status: StatusCode, c: HookCall)
    requires ResetOnce(active, made, status) && c.id !in active && c.hook.OnReset?
    ensures ResetOnce(active + {c.id}, made + [c], RecordFirst(status, c.answer))
  {
    var after := made + [c];
    assert after[|made|] == c;
    forall id | id in active
      ensures exists k :: 0 <= k < |after| && after[k].id == id
    {
      var k :| 0 <= k < |made| && made[k].id == id;
      assert after[k] == made[k];
    }
    OneMoreCall(made, c);
  }

  lemma OneMoreIsOnce(ids: seq<Id>, created: seq<bool>, before: seq<StatusCode>, last: StatusCode)
    requires |ids| == |created| && |before| < |ids| && Distinct(ids)
    requires created[|ids| - 1 - |before|] ==> last.OkStatus?
    requires ResetOnce(ActiveFrom(ids, created, |ids| - |before|), Resets(ids, created, before), FirstFailure(before))
    ensures ResetOnce(ActiveFrom(ids, created, |ids| - 1 - |before|), Resets(ids, created, before + [last]),
                      FirstFailure(before + [last]))
  {
    hide ResetOnce, Resets, ActiveFrom, FirstFailure, Distinct;
    var k := |ids| - 1 - |before|;
    var active, made, status := ActiveFrom(ids, created, k + 1), Resets(ids, created, before), FirstFailure(before);
    ActiveOneMore(ids, created, k);
    ResetsOneMore(ids, created, before, last);
    OneMoreAnswer(before, last);
    if created[k] {
      assert RecordFirst(status, last) == status;
    } else {
      var c := HookCall(ids[k], OnReset, last);
      ResetOneMore(active, made, status, c);
    }
  }

  /** Only what is not created is asked, and what is created answers success, so no answer is lost. */
  lemma {:induction false} ResetsAreOnce(ids: seq<Id>, created: seq<bool>, answers: seq<StatusCode>)
    requires |ids| == |created| && |answers| <= |ids| && Distinct(ids)
    requires forall k :: 0 <= k < |answers| && created[|ids| - 1 - k] ==> answers[k].OkStatus?
    ensures ResetOnce(ActiveFrom(ids, created, |ids| - |answers|), Resets(ids, created, answers), FirstFailure(answers))
  {
    if answers != [] {
      hide ResetOnce, Resets, ActiveFrom, FirstFailure;
      var before, last := answers[..|answers| - 1], answers[|answers| - 1];
      ResetsAreOnce(ids, created, before);
      OneMoreIsOnce(ids, created, before, last);
      assert answers == before + [last];
    } else {
      NothingReset(ids, created);
      assert ActiveFrom(ids, created, |ids|) == {};
    }
  }

  /** What one turn of a drain asks: nodes to stop, then the nodes behind to tick, and all of them to reset. */
  datatype DrainCalls = DrainCalls(stops: seq<HookCall>, ticks: seq<HookCall>, resets: seq<HookCall>)

  const NO_CALLS := DrainCalls([], [], [])

  function All(d: DrainCalls): seq<HookCall> {
    d.stops + d.ticks + d.resets
  }

  lemma CallsOfTurn(before: seq<HookCall>, d: DrainCalls)
    ensures before + d.stops + d.ticks + d.resets == before + All(d)
    ensures before + d.stops + d.resets == before + d.stops + [] + d.resets
  {
  }

  /**
   * A turn of a drain that has reached place `from`: the nodes are asked to stop in turn, up to the first that has
   * not stopped yet. Those behind that one are ticked, and the turn ends there. If all of them have stopped, or a
   * stop or a tick fails, every node is reset.
   */
  predicate DrainTurn(ids: seq<Id>, from: nat, d: DrainCalls, status: StatusCode)
    requires from <= |ids|
  {
    var rest := ids[from..];
    if |d.stops| == |rest| && PassedSoFar(rest, OnStop, d.stops) then
      d.ticks == [] && AllReset(ids, d.resets) && status == FirstFailure(Answers(d.resets))
    else
      && d.stops != [] && EndedBy(rest, OnStop, d.stops, d.stops[|d.stops| - 1].answer)
      && if !TemporarilyEmpty(d.stops[|d.stops| - 1].answer) then
           d.ticks == [] && AllReset(ids, d.resets) && status == d.stops[|d.stops| - 1].answer
         else if AskedInTurn(rest[|d.stops|..], OnTick, d.ticks, OkStatus) then
           status.WouldBlock? && d.resets == []
         else
           AskedInTurn(rest[|d.stops|..], OnTick, d.ticks, status) && AllReset(ids, d.resets)
  }

  lemma TurnFinishes(ids: seq<Id>, from: nat, stops: seq<HookCall>, resets: seq<HookCall>)
    requires from <= |ids| && |stops| == |ids| - from && PassedSoFar(ids[from..], OnStop, stops)
    requires AllReset(ids, resets)
    ensures DrainTurn(ids, from, DrainCalls(stops, [], resets), FirstFailure(Answers(resets)))
  {
  }

  lemma TurnFails(ids: seq<Id>, from: nat, stops: seq<HookCall>, resets: seq<HookCall>, answer: StatusCode)
    requires from <= |ids| && EndedBy(ids[from..], OnStop, stops, answer)
    requires !TemporarilyEmpty(answer) && AllReset(ids, resets)
    ensures DrainTurn(ids, from, DrainCalls(stops, [], resets), answer)
  {
    assert stops[|stops| - 1].answer == answer;
  }

  lemma TurnPauses(ids: seq<Id>, from: nat, stops: seq<HookCall>, ticks: seq<HookCall>, answer: StatusCode)
    requires from <= |ids| && EndedBy(ids[from..], OnStop, stops, answer) && TemporarilyEmpty(answer)
    requires AskedInTurn(ids[from + |stops|..], OnTick, ticks, OkStatus)
    ensures DrainTurn(ids, from, DrainCalls(stops, ticks, []), WouldBlock)
  {
    assert stops[|stops| - 1].answer == answer;
    assert ids[from..][|stops|..] == ids[from + |stops|..];
  }

  lemma TurnTickFails(ids: seq<Id>, from: nat, stops: seq<HookCall>, ticks: seq<HookCall>, resets: seq<HookCall>,
                      answer: StatusCode, status: StatusCode)
    requires from <= |ids| && EndedBy(ids[from..], OnStop, stops, answer) && TemporarilyEmpty(answer)
    requires EndedBy(ids[from + |stops|..], OnTick, ticks, status) && AllReset(ids, resets)
    ensures DrainTurn(ids, from, DrainCalls(stops, ticks, resets), status)
  {
    assert stops[|stops| - 1].answer == answer;
    assert ids[from..][|stops|..] == ids[from + |stops|..];
  }

  /** What a start asks: all nodes to prepare, then all to start; what was prepared is rolled back after a failure. */
  datatype StartCalls = StartCalls(prepared: seq<HookCall>, started: seq<HookCall>, undone: seq<HookCall>)

  const NOT_STARTED := StartCalls([], [], [])

  predicate StartTurn(ids: seq<Id>, c: StartCalls, status: StatusCode) {
    if AskedInTurn(ids, OnPrepare, c.prepared, OkStatus) then
      && AskedInTurn(ids, OnStart, c.started, status)
      && if status.OkStatus? then c.undone == [] else RolledBack(ids, c.undone)
    else
      && AskedInTurn(ids, OnPrepare, c.prepared, status) && c.started == []
      && RolledBack(ids[..|c.prepared| - 1], c.undone)
  }
}
