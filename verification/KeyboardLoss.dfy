/**
 What can still be sent once the companion has reported that it cannot see the keyboard.
 A request reads the report once, after it has captured its epoch; the report cancels
 requests only where it moves the epoch, which it does not at `off`.
 */
module KeyboardLoss {
  import opened Basics
  import opened InputTypes
  import opened GateModel
  import opened GateInvariant
  import opened Interleaving
  import opened BatchBound

  /** Requests past their keyboard check and not yet done. */
  function PastCheck(y: System): set<Tid> {
    set t | t in y.threads && Past(y.threads[t].pc)
  }

  predicate Past(pc: Pc) {
    pc != Fresh && pc != Captured && pc != Done
  }

  /** Every batch logged since was sent by one of these requests. */
  ghost predicate SentOnlyBy(before: seq<Event>, after: seq<Event>, tids: set<Tid>) {
    before <= after && forall i :: |before| <= i < |after| && after[i].Sent? ==> after[i].tid in tids
  }

  lemma LossIsForGood(y: System, action: Action)
    requires Inv(y.gate) && !y.gate.keyboard
    ensures !Act(y, action).gate.keyboard && Inv(Act(y, action).gate)
  {
    GateMoves(y, action);
    if GateStep(y, action).Some? {
      NextMovesForward(y.gate, GateStep(y, action).value);
      NextKeepsInv(y.gate, GateStep(y, action).value);
    }
  }

  /** No request passes its check any more, and only one that has can send. */
  lemma NobodyPasses(y: System, action: Action)
    requires !y.gate.keyboard
    ensures PastCheck(Act(y, action)) <= PastCheck(y)
    ensures SentOnlyBy(y.log, Act(y, action).log, PastCheck(y))
  {
    if action.Advance? && action.tid in y.threads {
      var z := Act(y, action);
      PassesNoCheck(y, y.threads[action.tid], action.choice);
      assert z.threads == y.threads[action.tid := NextThread(y, y.threads[action.tid], action.choice)];
    }
  }

  lemma PassesNoCheck(y: System, th: Thread, c: Choice)
    requires !y.gate.keyboard
    ensures Past(NextThread(y, th, c).pc) ==> Past(th.pc)
  {
  }

  /**
   Once the loss is reported, over every interleaving and whatever anyone posts: no
   request passes its keyboard check, and only those that had passed it before send.
   */
  lemma {:induction false} OnlyPastTheCheckSend(y: System, actions: seq<Action>)
    requires Inv(y.gate) && !y.gate.keyboard
    ensures var z := Acts(y, actions);
            && !z.gate.keyboard && PastCheck(z) <= PastCheck(y)
            && SentOnlyBy(y.log, z.log, PastCheck(y))
    decreases |actions|
  {
    if actions != [] {
      LossIsForGood(y, actions[0]);
      NobodyPasses(y, actions[0]);
      OnlyPastTheCheckSend(Act(y, actions[0]), actions[1..]);
    }
  }

  // ----- a loss that moves the epoch

  /** The loss is known, and every request past its check is cancelled by its epoch. */
  ghost predicate Lost(y: System, bound: nat) {
    && ProtocolInv(y) && !y.gate.keyboard && bound <= y.gate.epoch
    && forall t :: t in PastCheck(y) ==> y.threads[t].epoch < bound
  }

  lemma EpochIsKept(y: System, action: Action, t: Tid)
    requires t in PastCheck(y)
    ensures t in Act(y, action).threads && Act(y, action).threads[t].epoch == y.threads[t].epoch
  {
  }

  lemma LostStays(y: System, action: Action, bound: nat)
    requires Lost(y, bound)
    ensures Lost(Act(y, action), bound)
  {
    ActKeepsInv(y, action);
    EpochsKept(y, action);
    LossIsForGood(y, action);
    NobodyPasses(y, action);
    forall t | t in PastCheck(Act(y, action))
      ensures Act(y, action).threads[t].epoch < bound
    {
      EpochIsKept(y, action, t);
    }
  }

  /** Nobody else can send, so counting the old requests is counting all. */
  lemma AllAreOld(y: System, action: Action, bound: nat)
    requires Lost(y, bound)
    ensures OnItsWay(y, None) == OnItsWay(y, Some(bound))
    ensures BatchesSent(Act(y, action).log, None) - BatchesSent(y.log, None) ==
            BatchesSent(Act(y, action).log, Some(bound)) - BatchesSent(y.log, Some(bound))
  {
    if action.Advance? && action.tid in y.threads {
      var th := y.threads[action.tid];
      var z := Act(y, action);
      if th.pc == Sending {
        assert action.tid in PastCheck(y);
        assert z.log == y.log + [Sent(action.tid, th.epoch, FirstBatch(th.work))] && z.log[..|z.log| - 1] == y.log;
      } else if th.pc == Releasing {
        assert z.log == y.log + [Released(action.tid)] && z.log[..|z.log| - 1] == y.log;
      }
    }
    if y.holder.Some? && y.holder.value in y.threads && y.threads[y.holder.value].pc == Sending {
      assert y.holder.value in PastCheck(y);
    }
  }

  lemma {:induction false} LostBatches(y: System, actions: seq<Action>, bound: nat)
    requires Lost(y, bound) && Acts(y, actions).gate.epoch < EPOCH_LIMIT
    ensures BatchesSent(Acts(y, actions).log, None) <= BatchesSent(y.log, None) + OnItsWay(y, None)
    decreases |actions|
  {
    if actions != [] {
      var z := Act(y, actions[0]);
      LostStays(y, actions[0], bound);
      ActsKeepInv(z, actions[1..]);
      EpochsKept(y, actions[0]);
      NoNewBatch(y, actions[0], Some(bound));
      AllAreOld(y, actions[0], bound);
      AllAreOld(z, actions[0], bound);
      LostBatches(z, actions[1..], bound);
    }
  }

  /**
   A report that finds the gate running, or in a call, with the keyboard known to it so
   far: at most one more batch is sent, by anyone and for ever, whatever is posted,
   started, resumed or spawned after it.
   */
  lemma AtMostOneBatchAfterLoss(y: System, actions: seq<Action>)
    requires ProtocolInv(y) && y.gate.keyboard && (y.gate.injecting || y.gate.phase == Running)
    requires Acts(Act(y, Outside(Keyboard(false))), actions).gate.epoch < EPOCH_LIMIT
    ensures BatchesSent(Acts(Act(y, Outside(Keyboard(false))), actions).log, None) <= BatchesSent(y.log, None) + 1
  {
    var step := Keyboard(false);
    var z := Act(y, Outside(step));
    GateMoves(y, Outside(step));
    EpochMovesExactly(y.gate, step);
    ActKeepsInv(y, Outside(step));
    assert z.threads == y.threads && z.log == y.log;
    LostBatches(z, actions, y.gate.epoch + 1);
  }

  // ----- a loss at `off`

  /** A run of the requests, nothing else, that takes `y` to `z`. */
  ghost predicate GoesTo(y: System, way: seq<Action>, z: System) {
    Acts(y, way) == z && forall i :: 0 <= i < |way| ==> way[i].Advance?
  }

  lemma GoesOn(y: System, way: seq<Action>, z: System)
    requires GoesTo(y, way, z)
    ensures GoesTo(y, way + [Advance(0, GO), Advance(0, GO)], Act(Act(z, Advance(0, GO)), Advance(0, GO)))
  {
    var next := Act(z, Advance(0, GO));
    ActsConcat(y, way, [Advance(0, GO), Advance(0, GO)]);
    assert [Advance(0, GO), Advance(0, GO)][1..] == [Advance(0, GO)];
    assert [Advance(0, GO)][1..] == [];
    assert Acts(next, [Advance(0, GO)]) == Acts(Act(next, Advance(0, GO)), []);
  }

  /** Request 0 in front of a batch, nothing against it. */
  ghost predicate Underway(y: System, steps: seq<PointerStep>) {
    0 in y.threads && y.threads[0].pc == AtCheck && y.threads[0].epoch == 0 && y.threads[0].work == Pointer(steps) &&
    y.gate.word == PackSnap(0, Running)
  }

  lemma ArmsWithoutKeyboard(y: System, steps: seq<PointerStep>)
    requires 0 in y.threads && y.threads[0].pc == Arming && y.threads[0].epoch == 0
    requires y.threads[0].work == Pointer(steps) && y.gate.phase == Off && y.gate.epoch == 0
    ensures var z := Act(Act(y, Advance(0, GO)), Advance(0, GO));
            Underway(z, steps) && z.log == y.log
  {
    var armed := Act(y, Advance(0, GO));
    assert armed.threads[0].pc == Armed && armed.gate.word == PackSnap(0, Running);
  }

  lemma OneBatchGoes(y: System, steps: seq<PointerStep>)
    requires Underway(y, steps) && |steps| >= POINTER_BATCH
    ensures var z := Act(Act(y, Advance(0, GO)), Advance(0, GO));
            Underway(z, steps[POINTER_BATCH..]) && BatchesSent(z.log, None) == BatchesSent(y.log, None) + 1
  {
    UnpackPack(0, Running);
    var sending := Act(y, Advance(0, GO));
    assert sending.threads[0].pc == Sending && sending.log == y.log;
    var z := Act(sending, Advance(0, GO));
    assert z.log[..|z.log| - 1] == y.log;
  }

  lemma NextBatchGoes(y: System, steps: seq<PointerStep>, start: System, way: seq<Action>)
    returns (z: System, longer: seq<Action>)
    requires Underway(y, steps) && |steps| >= POINTER_BATCH && GoesTo(start, way, y)
    ensures Underway(z, steps[POINTER_BATCH..]) && BatchesSent(z.log, None) == BatchesSent(y.log, None) + 1
    ensures GoesTo(start, longer, z)
  {
    z := Act(Act(y, Advance(0, GO)), Advance(0, GO));
    longer := way + [Advance(0, GO), Advance(0, GO)];
    OneBatchGoes(y, steps);
    GoesOn(start, way, y);
  }

  lemma {:induction false} BatchesGo(y: System, steps: seq<PointerStep>, n: nat, start: System, way: seq<Action>)
    returns (z: System, longer: seq<Action>)
    requires Underway(y, steps) && |steps| == n * POINTER_BATCH && GoesTo(start, way, y)
    ensures GoesTo(start, longer, z) && BatchesSent(z.log, None) == BatchesSent(y.log, None) + n
    decreases n
  {
    z, longer := y, way;
    if n > 0 {
      z, longer := NextBatchGoes(y, steps, start, way);
      z, longer := BatchesGo(z, steps[POINTER_BATCH..], n - 1, start, longer);
    }
  }

  /** The report finds an idle gate and a request before its arming, and changes neither. */
  lemma LossBeforeArming(session: Session, steps: seq<PointerStep>)
    ensures var y := Walked(IDLE, session, Pointer(steps), 6);
            var lost := Act(y, Outside(Keyboard(false)));
            && y.gate == INITIAL
            && 0 in lost.threads && lost.threads[0].pc == Arming && lost.threads[0].epoch == 0
            && lost.threads[0].work == Pointer(steps) && lost.gate.phase == Off && lost.gate.epoch == 0
            && lost.log == y.log
  {
    WalksToArming(IDLE, session, Pointer(steps));
  }

  /**
   At `off` the report moves no epoch, and no bound holds: for every `n`, a request past
   its check arms after the loss and sends `n` batches.
   */
  lemma LossAtOffBoundsNothing(session: Session, steps: seq<PointerStep>, n: nat)
    requires |steps| == n * POINTER_BATCH
    ensures var y := Acts(IDLE, Way(session, Pointer(steps), 6));
            var lost := Act(y, Outside(Keyboard(false)));
            && ProtocolInv(y) && y.gate.phase == Off && !y.gate.injecting && y.gate.keyboard
            && exists way, z :: GoesTo(lost, way, z) && BatchesSent(z.log, None) == BatchesSent(y.log, None) + n
  {
    var y := Walked(IDLE, session, Pointer(steps), 6);
    var lost := Act(y, Outside(Keyboard(false)));
    ProtocolStarts();
    ActsKeepInv(IDLE, Way(session, Pointer(steps), 6));
    WayIsWalked(IDLE, session, Pointer(steps), 6);
    LossBeforeArming(session, steps);
    ArmsWithoutKeyboard(lost, steps);
    GoesOn(lost, [], lost);
    var z, way := BatchesGo(Act(Act(lost, Advance(0, GO)), Advance(0, GO)), steps, n, lost,
                            [] + [Advance(0, GO), Advance(0, GO)]);
    assert GoesTo(lost, way, z);
  }
}
