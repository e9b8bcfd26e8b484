/** How much input can still reach the desktop once a person has paused or stopped the automation. */
module BatchBound {
  import opened Basics
  import opened InputTypes
  import opened GateModel
  import opened GateInvariant
  import opened PauseLatch
  import opened Interleaving

  /** Batches in the log from requests that captured an epoch below `bound`; none means from all. */
  function BatchesSent(log: seq<Event>, bound: Option<nat>): nat {
    if log == [] then 0
    else BatchesSent(log[..|log| - 1], bound) + if Counts(log[|log| - 1], bound) then 1 else 0
  }

  predicate Counts(event: Event, bound: Option<nat>) {
    event.Sent? && (bound.None? || event.epoch < bound.value)
  }

  /** One batch may already be past its cancel check: only the mutex holder can be there. */
  function OnItsWay(y: System, bound: Option<nat>): nat {
    if y.holder.Some? && y.holder.value in y.threads && y.threads[y.holder.value].pc == Sending &&
       (bound.None? || y.threads[y.holder.value].epoch < bound.value) then 1 else 0
  }

  /** The requests the bound speaks of see themselves cancelled. */
  ghost predicate AllCancelled(y: System, bound: Option<nat>) {
    if bound.None? then y.gate.phase == Paused else bound.value <= y.gate.epoch < EPOCH_LIMIT
  }

  /** A request the bound speaks of fails the check in front of its next batch. */
  lemma CancelledDoesNotSend(y: System, th: Thread, c: Choice, bound: Option<nat>)
    requires Inv(y.gate) && AllCancelled(y, bound) && NextPc(y, th, c) == Sending
    ensures th.pc == AtCheck && bound.Some? && th.epoch >= bound.value
  {
    UnpackPack(y.gate.epoch, y.gate.phase);
  }

  lemma BatchesSnoc(log: seq<Event>, event: Event, bound: Option<nat>)
    ensures BatchesSent(log + [event], bound) == BatchesSent(log, bound) + if Counts(event, bound) then 1 else 0
  {
    assert (log + [event])[..|log|] == log;
  }

  /** What a thread's own step does to the count, and to what is on its way. */
  lemma OwnStepCounts(y: System, tid: Tid, c: Choice, bound: Option<nat>)
    requires MutexInv(y) && tid in y.threads
    ensures var th, z := y.threads[tid], Act(y, Advance(tid, c));
            var counts := bound.None? || th.epoch < bound.value;
            BatchesSent(z.log, bound) ==
            BatchesSent(y.log, bound) + if th.pc == Sending && counts then 1 else 0
  {
    var th := y.threads[tid];
    BatchesSnoc(y.log, Sent(tid, th.epoch, FirstBatch(th.work)), bound);
    BatchesSnoc(y.log, Released(tid), bound);
  }

  lemma OwnStepOnItsWay(y: System, tid: Tid, c: Choice, bound: Option<nat>)
    requires MutexInv(y) && tid in y.threads
    requires NextPc(y, y.threads[tid], c) == Sending ==> bound.Some? && y.threads[tid].epoch >= bound.value
    ensures var th, z := y.threads[tid], Act(y, Advance(tid, c));
            var counts := bound.None? || th.epoch < bound.value;
            && OnItsWay(z, bound) <= OnItsWay(y, bound)
            && (th.pc == Sending && counts ==> OnItsWay(y, bound) == 1 && OnItsWay(z, bound) == 0)
  {
    var z := Act(y, Advance(tid, c));
    assert z.threads == y.threads[tid := NextThread(y, y.threads[tid], c)];
    MutexKept(y, Advance(tid, c));
  }

  lemma AdvanceSendsNoNew(y: System, tid: Tid, c: Choice, bound: Option<nat>)
    requires ProtocolInv(y) && AllCancelled(y, bound) && tid in y.threads
    ensures var z := Act(y, Advance(tid, c));
            BatchesSent(z.log, bound) + OnItsWay(z, bound) <= BatchesSent(y.log, bound) + OnItsWay(y, bound)
  {
    if NextPc(y, y.threads[tid], c) == Sending {
      CancelledDoesNotSend(y, y.threads[tid], c, bound);
    }
    OwnStepCounts(y, tid, c, bound);
    OwnStepOnItsWay(y, tid, c, bound);
  }

  /** A step spends the batch on its way or nothing; it never puts a new one on its way. */
  lemma NoNewBatch(y: System, action: Action, bound: Option<nat>)
    requires ProtocolInv(y) && AllCancelled(y, bound)
    ensures BatchesSent(Act(y, action).log, bound) + OnItsWay(Act(y, action), bound)
            <= BatchesSent(y.log, bound) + OnItsWay(y, bound)
  {
    match action
    case Advance(tid, c) =>
      if tid in y.threads {
        AdvanceSendsNoNew(y, tid, c, bound);
      }
    case _ =>
  }

  // ----- after a pause

  predicate NoLiftActions(actions: seq<Action>) {
    forall i :: 0 <= i < |actions| && actions[i].Outside? ==> !MayLift(actions[i].step)
  }

  lemma LatchThroughAct(y: System, action: Action)
    requires ProtocolInv(y) && Latched(y.gate) && (action.Outside? ==> !MayLift(action.step))
    ensures Latched(Act(y, action).gate)
  {
    GateMoves(y, action);
    if GateStep(y, action).Some? {
      LatchSurvivesStep(y.gate, GateStep(y, action).value);
    }
  }

  lemma {:induction false} PausedBatches(y: System, actions: seq<Action>)
    requires ProtocolInv(y) && Latched(y.gate) && NoLiftActions(actions)
    ensures var z := Acts(y, actions);
            && Latched(z.gate)
            && BatchesSent(z.log, None) + OnItsWay(z, None) <= BatchesSent(y.log, None) + OnItsWay(y, None)
    decreases |actions|
  {
    if actions != [] {
      NoNewBatch(y, actions[0], None);
      LatchThroughAct(y, actions[0]);
      ActKeepsInv(y, actions[0]);
      PausedBatches(Act(y, actions[0]), actions[1..]);
    }
  }

  /**
   From the step that publishes a pause until a companion control or a shutdown, over
   every interleaving of any number of requests, at most one batch in total is sent: one
   short mouse call, 16 pointer steps or 32 keystrokes. The phase is paused throughout.
   */
  lemma AtMostOneBatchAfterPause(y: System, pause: Step, actions: seq<Action>)
    requires ProtocolInv(y) && Pauses(y.gate, pause) && NoLiftActions(actions)
    ensures var paused := Act(y, Outside(pause));
            var z := Acts(paused, actions);
            && paused.gate.phase == Paused && z.gate.phase == Paused
            && BatchesSent(z.log, None) <= BatchesSent(y.log, None) + 1
            && forall i :: 0 <= i < |z.log| && z.log[i].Sent? ==> OneBatch(z.log[i].batch)
  {
    var paused := Act(y, Outside(pause));
    EveryPauseLatches(y.gate, pause);
    ActKeepsInv(y, Outside(pause));
    PausedBatches(paused, actions);
    ActsKeepInv(paused, actions);
  }

  // ----- requests that come while the gate is paused

  /** Before the mutex, or refused. */
  predicate AtTheDoor(pc: Pc) {
    pc == Fresh || pc == Captured || pc == Watched || pc == Done
  }

  predicate SeesTheWord(action: Action) {
    action.Advance? ==> action.choice.glimpse == None
  }

  lemma DoorStaysShut(y: System, th: Thread, c: Choice)
    requires Inv(y.gate) && y.gate.phase == Paused && AtTheDoor(th.pc) && c.glimpse == None
    ensures AtTheDoor(NextPc(y, th, c))
  {
    UnpackPack(y.gate.epoch, y.gate.phase);
  }

  /** A request that comes to a paused gate never takes the mutex, unless it loads the word amid a replay. */
  lemma {:induction false} PausedGateTurnsAway(y: System, actions: seq<Action>, tid: Tid)
    requires ProtocolInv(y) && Latched(y.gate) && NoLiftActions(actions)
    requires forall i :: 0 <= i < |actions| ==> SeesTheWord(actions[i])
    requires tid in y.threads && AtTheDoor(y.threads[tid].pc)
    ensures tid in Acts(y, actions).threads && AtTheDoor(Acts(y, actions).threads[tid].pc)
    decreases |actions|
  {
    if actions != [] {
      var z := Act(y, actions[0]);
      assert SeesTheWord(actions[0]);
      ActKeepsInv(y, actions[0]);
      LatchThroughAct(y, actions[0]);
      if actions[0].Advance? && actions[0].tid in y.threads {
        assert z.threads == y.threads[actions[0].tid := NextThread(y, y.threads[actions[0].tid], actions[0].choice)];
        DoorStaysShut(y, y.threads[tid], actions[0].choice);
      }
      PausedGateTurnsAway(z, actions[1..], tid);
    }
  }

  /** The bound is tight: a batch past its cancel check does go out after the pause. */
  lemma TheOneBatchHappens(y: System, tid: Tid, choice: Choice, pause: Step)
    requires ProtocolInv(y) && Pauses(y.gate, pause)
    requires tid in y.threads && y.threads[tid].pc == Sending
    ensures var z := Acts(y, [Outside(pause), Advance(tid, choice)]);
            BatchesSent(z.log, None) == BatchesSent(y.log, None) + 1
  {
    var paused := Act(y, Outside(pause));
    var z := Act(paused, Advance(tid, choice));
    var actions := [Outside(pause), Advance(tid, choice)];
    assert Acts(y, actions) == z by {
      assert actions[1..] == [Advance(tid, choice)];
      assert Acts(paused, [Advance(tid, choice)]) == Acts(z, []);
    }
    assert paused.log == y.log && paused.threads == y.threads;
    assert z.log == y.log + [Sent(tid, y.threads[tid].epoch, FirstBatch(y.threads[tid].work))];
    assert z.log[..|z.log| - 1] == y.log;
  }

  const IDLE: System := System(INITIAL, None, map[], [], false)

  /** Nothing refused, at the start of the clock. */
  const GO: Choice := Choice(false, true, 0, 0, 1, Move(0, 0, false), None, None, 0, None)

  /** A visor without requests, off under its first epoch, that would let one in. */
  ghost predicate AtRest(y: System) {
    && y.gate.phase == Off && y.gate.epoch == 0 && y.gate.word == PackSnap(0, Off)
    && !StaleReentry(y.gate, GO.now, GO.timeout)
    && y.gate.keyboard && y.holder == None && y.threads == map[] && !y.shutdown && y.log == []
  }

  /** The visor after request 0 has come and taken `n` steps. */
  function Walked(start: System, session: Session, work: Work, n: nat): System {
    if n == 0 then Act(start, Spawn(0, session, work)) else Act(Walked(start, session, work, n - 1), Advance(0, GO))
  }

  /** The thread's steps up to the arming leave the gate as it was. */
  lemma WalksToArming(start: System, session: Session, work: Work)
    requires AtRest(start)
    ensures var y := Walked(start, session, work, 6);
            && y.gate == start.gate && y.holder == Some(0) && 0 in y.threads && !y.shutdown && y.log == []
            && y.threads[0].pc == Arming && y.threads[0].epoch == 0 && y.threads[0].seen == Off
            && y.threads[0].work == work
  {
    UnpackPack(0, Off);
    var y0, y1, y2 := Walked(start, session, work, 0), Walked(start, session, work, 1), Walked(start, session, work, 2);
    var y3, y4, y5 := Walked(start, session, work, 3), Walked(start, session, work, 4), Walked(start, session, work, 5);
    assert y0.threads[0].pc == Fresh && y1.threads[0].pc == Captured && y2.threads[0].pc == Watched;
    assert y3.threads[0].pc == Waiting && y4.threads[0].pc == Holding && y5.threads[0].pc == Vetted;
  }

  lemma ArmsFromIdle(y: System)
    requires y.gate == INITIAL && 0 in y.threads && y.threads[0].pc == Arming && y.threads[0].epoch == 0
    ensures var z := Act(y, Advance(0, GO));
            && 0 in z.threads && z.threads[0].pc == Armed && z.threads[0].epoch == 0
            && z.threads[0].work == y.threads[0].work && z.gate.word == PackSnap(0, Running) && z.log == y.log
  {
  }

  lemma SendsWhenArmed(y: System)
    requires 0 in y.threads && y.threads[0].pc == Armed && y.threads[0].epoch == 0 && y.threads[0].work.ShortCall?
    requires y.gate.word == PackSnap(0, Running)
    ensures var z := Act(Act(y, Advance(0, GO)), Advance(0, GO));
            0 in z.threads && z.threads[0].pc == Sending && z.log == y.log
  {
    UnpackPack(0, Running);
    var z := Act(y, Advance(0, GO));
    assert z.threads[0] == NextThread(y, y.threads[0], GO) && z.threads[0].pc == AtCheck && z.gate == y.gate;
    assert NextPc(z, z.threads[0], GO) == Sending;
  }

  lemma WalksToSending(session: Session, work: Work)
    requires work.ShortCall?
    ensures var y := Walked(IDLE, session, work, 9);
            0 in y.threads && y.threads[0].pc == Sending && y.log == []
  {
    WalksToArming(IDLE, session, work);
    ArmsFromIdle(Walked(IDLE, session, work, 6));
    SendsWhenArmed(Act(Walked(IDLE, session, work, 6), Advance(0, GO)));
    assert Walked(IDLE, session, work, 7) == Act(Walked(IDLE, session, work, 6), Advance(0, GO));
  }

  function Way(session: Session, work: Work, n: nat): seq<Action> {
    if n == 0 then [Spawn(0, session, work)] else Way(session, work, n - 1) + [Advance(0, GO)]
  }

  lemma {:induction false} ActsConcat(y: System, a: seq<Action>, b: seq<Action>)
    ensures Acts(y, a + b) == Acts(Acts(y, a), b)
    decreases |a|
  {
    if a == [] {
      assert a + b == b;
    } else {
      assert (a + b)[1..] == a[1..] + b;
      ActsConcat(Act(y, a[0]), a[1..], b);
    }
  }

  lemma {:induction false} WayIsWalked(start: System, session: Session, work: Work, n: nat)
    ensures Acts(start, Way(session, work, n)) == Walked(start, session, work, n)
  {
    if n == 0 {
      assert Way(session, work, 0)[1..] == [];
    } else {
      WayIsWalked(start, session, work, n - 1);
      ActsConcat(start, Way(session, work, n - 1), [Advance(0, GO)]);
      var y := Walked(start, session, work, n - 1);
      assert Acts(y, [Advance(0, GO)]) == Act(y, Advance(0, GO)) by {
        assert [Advance(0, GO)][1..] == [];
      }
    }
  }

  /** And there is such a batch: from an idle visor, for any session and short call, and for a pause by anyone. */
  lemma TheBoundIsReached(session: Session, work: Work, r: Request)
    requires work.ShortCall? && r.action == Control.Pause
    ensures var y := Acts(IDLE, Way(session, work, 9));
            && ProtocolInv(y) && BatchesSent(y.log, None) == 0
            && BatchesSent(Acts(y, [Outside(Ask(r)), Advance(0, GO)]).log, None) == 1
  {
    ProtocolStarts();
    ActsKeepInv(IDLE, Way(session, work, 9));
    WayIsWalked(IDLE, session, work, 9);
    WalksToSending(session, work);
    TheOneBatchHappens(Walked(IDLE, session, work, 9), 0, GO, Ask(r));
  }

  // ----- after anything that moves the epoch

  lemma {:induction false} OldBatches(y: System, actions: seq<Action>, bound: nat)
    requires ProtocolInv(y) && bound <= y.gate.epoch && Acts(y, actions).gate.epoch < EPOCH_LIMIT
    ensures var z := Acts(y, actions);
            BatchesSent(z.log, Some(bound)) + OnItsWay(z, Some(bound)) <=
            BatchesSent(y.log, Some(bound)) + OnItsWay(y, Some(bound))
    decreases |actions|
  {
    if actions != [] {
      ActsKeepInv(y, actions);
      ActKeepsInv(y, actions[0]);
      EpochsKept(y, actions[0]);
      ActsKeepInv(Act(y, actions[0]), actions[1..]);
      NoNewBatch(y, actions[0], Some(bound));
      OldBatches(Act(y, actions[0]), actions[1..], bound);
    }
  }

  /**
   After a stop, a pause, a shutdown, a keyboard edge or a close of the owner, and
   whatever follows, resumes and resets included: the requests that captured an epoch
   before it send at most one more batch between them, for ever.
   */
  lemma AtMostOneOldBatch(y: System, stop: Step, actions: seq<Action>)
    requires ProtocolInv(y) && MovesEpoch(y.gate, stop)
    requires Acts(Act(y, Outside(stop)), actions).gate.epoch < EPOCH_LIMIT
    ensures var bound := y.gate.epoch + 1;
            BatchesSent(Acts(Act(y, Outside(stop)), actions).log, Some(bound)) <= BatchesSent(y.log, Some(bound)) + 1
  {
    var stopped := Act(y, Outside(stop));
    GateMoves(y, Outside(stop));
    EpochMovesExactly(y.gate, stop);
    ActKeepsInv(y, Outside(stop));
    OldBatches(stopped, actions, y.gate.epoch + 1);
  }

  // ----- the bracket

  /** The call goes on: same holder, same session, injecting, not off, and paused once paused. */
  ghost predicate OnlyPaused(y: System, z: System) {
    && Injecting(z) && z.holder == y.holder
    && z.gate.injecting && z.gate.settledSeq < z.gate.injectSeq
    && z.gate.session == y.gate.session == Some(z.threads[z.holder.value].session)
    && z.gate.phase != Off && (y.gate.phase == Paused ==> z.gate.phase == Paused)
  }

  lemma AdvanceOnlyPauses(y: System, tid: Tid, c: Choice)
    requires ProtocolInv(y) && Injecting(y) && !y.shutdown
    requires tid in y.threads && y.threads[tid].pc != Ending
    ensures OnlyPaused(y, Act(y, Advance(tid, c)))
  {
    MutexKept(y, Advance(tid, c));
    if GateStep(y, Advance(tid, c)).Some? {
      RecordKeepsBracket(y.gate, GateStep(y, Advance(tid, c)).value);
    }
  }

  /**
   While a request is between `begin_inject` and `end_inject` and no shutdown has begun,
   any step but its own end leaves the gate injecting for the same session, never off,
   and paused once it is paused.
   */
  lemma BracketOnlyPauses(y: System, action: Action)
    requires ProtocolInv(y) && Injecting(y)
    requires !Act(y, action).shutdown
    requires action.Advance? && action.tid in y.threads ==> y.threads[action.tid].pc != Ending
    ensures OnlyPaused(y, Act(y, action))
  {
    match action
    case Outside(step) =>
      if GateStep(y, action).Some? {
        OutsideKeepsBracket(y.gate, step);
      }
    case Advance(tid, c) =>
      if tid in y.threads {
        AdvanceOnlyPauses(y, tid, c);
      }
    case _ =>
  }
}
