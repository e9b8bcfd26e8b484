/**
 The trust clock against interleaved requests. A request makes its stale check under one
 acquisition of the gate lock and arms under a later one, so one that checked in time may
 arm late. At most one ever does, and exactly if nothing has moved the epoch since.
 */
module TrustRace {
  import opened Basics
  import opened GateModel
  import opened GateInvariant
  import opened TrustClock
  import opened Interleaving
  import opened BatchBound

  /** Clocks in order, no longer window, no word from the companion but a pause or stop, no shutdown. */
  predicate Quiet(action: Action, t: Millis, timeout: Millis) {
    match action
    case Spawn(_, _, _) => true
    case Outside(step) => Silent(step, timeout) && InOrder(step, t) && !step.CancelForShutdown?
    case Advance(_, c) => t <= c.now <= c.clock && c.timeout <= timeout
  }

  function Later(action: Action, t: Millis): Millis {
    match action
    case Spawn(_, _, _) => t
    case Outside(step) => After(step, t)
    case Advance(_, c) => c.clock
  }

  predicate QuietRun(actions: seq<Action>, t: Millis, timeout: Millis)
    decreases |actions|
  {
    actions == [] || (Quiet(actions[0], t, timeout) && QuietRun(actions[1..], Later(actions[0], t), timeout))
  }

  /** The companion's last word is a window old. The gate may or may not still be running. */
  ghost predicate Late(y: System, t: Millis, timeout: Millis) {
    && ProtocolInv(y) && !y.shutdown
    && TrustInv(y.gate, t) && TcpQueue(y.gate.queue, timeout)
    && y.gate.trustedAt.Some? && y.gate.trustedAt.value + timeout <= t
  }

  /** A request that made its check at `off` and has not armed yet. The mutex admits one at most. */
  function Racing(y: System): nat {
    if y.holder.Some? && y.holder.value in y.threads && y.threads[y.holder.value].pc == Arming &&
       y.threads[y.holder.value].seen == Off then 1 else 0
  }

  /** Whether a step starts a gate that was not running. */
  function Starts(y: System, action: Action): nat {
    if y.gate.phase != Running && Act(y, action).gate.phase == Running then 1 else 0
  }

  function AllStarts(y: System, actions: seq<Action>): nat
    decreases |actions|
  {
    if actions == [] then 0 else Starts(y, actions[0]) + AllStarts(Act(y, actions[0]), actions[1..])
  }

  // ----- the gate step of an action

  /** A late gate that is not running stays so through every step but an arming. */
  lemma LateGateRests(s: State, step: Step, t: Millis, timeout: Millis)
    requires Expired(s, t, timeout) && Silent(step, timeout) && InOrder(step, t) && !step.Begin?
    requires step.Mouse? || step.Type? ==> s.injecting
    ensures Next(s, step).phase != Running
  {
    ExpiredStays(s, step, t, timeout);
  }

  /** Silence moves neither the queue's origin nor the clocks, whatever the step. */
  lemma LateGateStaysLate(s: State, step: Step, t: Millis, timeout: Millis)
    requires Inv(s) && TrustInv(s, t) && TcpQueue(s.queue, timeout) && s.trustedAt.Some?
    requires Silent(step, timeout) && InOrder(step, t)
    ensures var s' := Next(s, step);
            TrustInv(s', After(step, t)) && TcpQueue(s'.queue, timeout) && s'.trustedAt == s.trustedAt
  {
    SilenceGrantsNothing(s, step, timeout);
    TrustKept(s, step, t);
  }

  lemma StepOfQuiet(y: System, action: Action, t: Millis, timeout: Millis)
    requires Quiet(action, t, timeout) && GateStep(y, action).Some?
    ensures var step := GateStep(y, action).value;
            Silent(step, timeout) && InOrder(step, t) && After(step, t) <= Later(action, t) && !step.CancelForShutdown?
  {
  }

  lemma StaysLate(y: System, action: Action, t: Millis, timeout: Millis)
    requires Late(y, t, timeout) && Quiet(action, t, timeout)
    ensures Late(Act(y, action), Later(action, t), timeout)
  {
    ActKeepsInv(y, action);
    GateMoves(y, action);
    if GateStep(y, action).Some? {
      StepOfQuiet(y, action, t, timeout);
      LateGateStaysLate(y.gate, GateStep(y, action).value, t, timeout);
    }
  }

  // ----- who can start a late gate

  lemma OutsideStartsNothing(y: System, step: Step, t: Millis, timeout: Millis)
    requires Late(y, t, timeout) && Quiet(Outside(step), t, timeout)
    ensures Starts(y, Outside(step)) == 0 && Racing(Act(y, Outside(step))) == Racing(y)
  {
    if y.gate.phase != Running && GateStep(y, Outside(step)).Some? {
      LateGateRests(y.gate, step, t, timeout);
    }
  }

  /** Arming from `off` takes a check at `off`, made by the holder of the mutex. */
  lemma ArmingSpendsTheRace(y: System, tid: Tid, c: Choice, t: Millis, timeout: Millis)
    requires Late(y, t, timeout) && tid in y.threads && y.threads[tid].pc == Arming
    ensures Starts(y, Advance(tid, c)) <= Racing(y) && Racing(Act(y, Advance(tid, c))) == 0
  {
    MutexKept(y, Advance(tid, c));
    GateMoves(y, Advance(tid, c));
    assert y.holder == Some(tid);
  }

  /** Inside its bracket a request records on a running gate or not at all, and its end replays TCP entries only. */
  lemma BracketStartsNothing(y: System, tid: Tid, c: Choice, t: Millis, timeout: Millis)
    requires Late(y, t, timeout) && Quiet(Advance(tid, c), t, timeout) && tid in y.threads
    requires y.threads[tid].pc == Recording || y.threads[tid].pc == Ending
    ensures Starts(y, Advance(tid, c)) == 0 && Racing(Act(y, Advance(tid, c))) == 0
  {
    var step := GateStep(y, Advance(tid, c)).value;
    GateMoves(y, Advance(tid, c));
    assert y.holder == Some(tid);
    if y.gate.phase != Running {
      LateGateRests(y.gate, step, t, timeout);
    }
  }

  /** A late check at `off` is refused, so no new request joins the race. */
  lemma LateCheckIsRefused(y: System, tid: Tid, c: Choice, t: Millis, timeout: Millis)
    requires Late(y, t, timeout) && Quiet(Advance(tid, c), t, timeout) && tid in y.threads
    requires NextPc(y, y.threads[tid], c) == Arming
    ensures y.gate.phase != Off
  {
  }

  lemma QuietThreadStartsNothing(y: System, tid: Tid, c: Choice, t: Millis, timeout: Millis)
    requires Late(y, t, timeout) && Quiet(Advance(tid, c), t, timeout) && tid in y.threads
    requires GateStep(y, Advance(tid, c)).None?
    ensures Starts(y, Advance(tid, c)) == 0 && Racing(Act(y, Advance(tid, c))) <= Racing(y)
  {
    var z := Act(y, Advance(tid, c));
    GateMoves(y, Advance(tid, c));
    MutexKept(y, Advance(tid, c));
    if NextPc(y, y.threads[tid], c) == Arming {
      LateCheckIsRefused(y, tid, c, t, timeout);
    }
    assert z.threads[tid] == NextThread(y, y.threads[tid], c);
    if z.holder.Some? && z.holder.value != tid {
      assert z.threads[z.holder.value] == y.threads[z.holder.value] && z.holder == y.holder;
    }
  }

  /** Every step spends the race or leaves it; none renews it. */
  lemma OneStepRaces(y: System, action: Action, t: Millis, timeout: Millis)
    requires Late(y, t, timeout) && Quiet(action, t, timeout)
    ensures Starts(y, action) + Racing(Act(y, action)) <= Racing(y)
  {
    match action
    case Spawn(_, _, _) =>
    case Outside(step) => OutsideStartsNothing(y, step, t, timeout);
    case Advance(tid, c) =>
      if tid in y.threads {
        if y.threads[tid].pc == Arming {
          ArmingSpendsTheRace(y, tid, c, t, timeout);
        } else if y.threads[tid].pc == Recording || y.threads[tid].pc == Ending {
          BracketStartsNothing(y, tid, c, t, timeout);
        } else {
          QuietThreadStartsNothing(y, tid, c, t, timeout);
        }
      }
  }

  /**
   Once the window has expired, over every interleaving of any number of requests and TCP
   controls with a silent companion, the gate is started at most once more, and then only
   by the one request that had already passed its stale check.
   */
  lemma {:induction false} AtMostOneLateStart(y: System, actions: seq<Action>, t: Millis, timeout: Millis)
    requires Late(y, t, timeout) && QuietRun(actions, t, timeout)
    ensures AllStarts(y, actions) <= Racing(y) <= 1
    ensures y.gate.phase != Running && Racing(y) == 0 ==> Acts(y, actions).gate.phase != Running
    decreases |actions|
  {
    if actions != [] {
      OneStepRaces(y, actions[0], t, timeout);
      StaysLate(y, actions[0], t, timeout);
      AtMostOneLateStart(Act(y, actions[0]), actions[1..], Later(actions[0], t), timeout);
    }
  }

  /** And each watchdog tick ends what is running, for good unless that one request is still to arm. */
  lemma LateTickEndsIt(y: System, tick: Millis, actions: seq<Action>, t: Millis, timeout: Millis)
    requires Late(y, t, timeout) && t <= tick && QuietRun(actions, tick, timeout)
    ensures var ticked := Act(y, Outside(Tick(tick, timeout)));
            && ticked.gate.phase != Running
            && AllStarts(ticked, actions) <= Racing(y)
            && (Racing(y) == 0 ==> Acts(ticked, actions).gate.phase != Running)
  {
    var step := Tick(tick, timeout);
    StaysLate(y, Outside(step), t, timeout);
    OneStepRaces(y, Outside(step), t, timeout);
    AtMostOneLateStart(Act(y, Outside(step)), actions, tick, timeout);
  }

  // ----- the late start

  /** The racing request's epoch is still the gate's. */
  ghost predicate MayStart(y: System) {
    Racing(y) == 1 && y.threads[y.holder.value].epoch == y.gate.epoch
  }

  /** The racing request arms now. */
  function ArmsNow(y: System, t: Millis, timeout: Millis): Action
    requires y.holder.Some?
  {
    Advance(y.holder.value, GO.(now := t, clock := t, timeout := timeout))
  }

  lemma OneStart(y: System, action: Action)
    ensures AllStarts(y, [action]) == Starts(y, action)
  {
    assert [action][1..] == [];
    assert AllStarts(Act(y, action), []) == 0;
  }

  lemma ArmsLate(y: System, t: Millis, timeout: Millis)
    requires Late(y, t, timeout) && y.gate.phase != Running && MayStart(y)
    ensures QuietRun([ArmsNow(y, t, timeout)], t, timeout) && AllStarts(y, [ArmsNow(y, t, timeout)]) == 1
  {
    var action := ArmsNow(y, t, timeout);
    OneStart(y, action);
    GateMoves(y, action);
    assert [action][1..] == [];
  }

  /** Once the race is lost it stays lost: the epoch never comes back and no request joins. */
  lemma LostStaysLost(y: System, action: Action, t: Millis, timeout: Millis)
    requires Late(y, t, timeout) && Quiet(action, t, timeout) && y.gate.phase != Running && !MayStart(y)
    ensures Starts(y, action) == 0 && !MayStart(Act(y, action))
  {
    OneStepRaces(y, action, t, timeout);
    if Racing(y) == 1 {
      EpochsKept(y, action);
      GateMoves(y, action);
      MutexKept(y, action);
    }
  }

  lemma {:induction false} LostStartsNothing(y: System, actions: seq<Action>, t: Millis, timeout: Millis)
    requires Late(y, t, timeout) && QuietRun(actions, t, timeout) && y.gate.phase != Running && !MayStart(y)
    ensures AllStarts(y, actions) == 0
    decreases |actions|
  {
    if actions != [] {
      LostStaysLost(y, actions[0], t, timeout);
      StaysLate(y, actions[0], t, timeout);
      LostStartsNothing(Act(y, actions[0]), actions[1..], Later(actions[0], t), timeout);
    }
  }

  /** From a late gate that is not running, a start can still come exactly if the racing request's epoch is current. */
  lemma LateStartExactly(y: System, t: Millis, timeout: Millis)
    requires Late(y, t, timeout) && y.gate.phase != Running
    ensures (exists actions :: QuietRun(actions, t, timeout) && AllStarts(y, actions) > 0) <==> MayStart(y)
  {
    if MayStart(y) {
      ArmsLate(y, t, timeout);
    }
    forall actions | QuietRun(actions, t, timeout) && !MayStart(y)
      ensures AllStarts(y, actions) == 0
    {
      LostStartsNothing(y, actions, t, timeout);
    }
  }

  const POLL: Action := Outside(Poll(0, 1))

  /** The companion polls once, and a request comes as far as its arming within the window. */
  function InTime(session: Session, work: Work): seq<Action> {
    [POLL] + Way(session, work, 6)
  }

  lemma InTimeStands(session: Session, work: Work)
    ensures var y := Acts(IDLE, InTime(session, work));
            && ProtocolInv(y) && !y.shutdown && y.holder == Some(0) && MayStart(y)
            && y.gate == INITIAL.(lastPoll := Some(0), trustedAt := Some(0))
  {
    var polled := Act(IDLE, POLL);
    ProtocolStarts();
    ActsKeepInv(IDLE, InTime(session, work));
    assert InTime(session, work)[1..] == Way(session, work, 6);
    WayIsWalked(polled, session, work, 6);
    WalksToArming(polled, session, work);
  }

  /**
   And one does: from an idle visor and one poll, for any session and work, a request that
   passed its stale check within the window starts the gate at any time after it, though
   the watchdog has found nothing to end.
   */
  lemma ALateStartHappens(session: Session, work: Work, t: Millis)
    requires 1 <= t
    ensures var y := Acts(IDLE, InTime(session, work));
            var ticked := Act(y, Outside(Tick(t, 1)));
            && Late(y, t, 1) && y.gate.phase == Off && ticked == y && y.holder == Some(0)
            && QuietRun([ArmsNow(ticked, t, 1)], t, 1) && AllStarts(ticked, [ArmsNow(ticked, t, 1)]) == 1
  {
    InTimeStands(session, work);
    ArmsLate(Acts(IDLE, InTime(session, work)), t, 1);
  }
}
