/**
 Request threads, the injection mutex and the gate, one atomic step at a time and in
 any order: every gate step runs under the gate lock, every load of the published word
 is its own step, and a batch reaches the desktop in a step after the check before it.
 The desktop is a log.
 */
module Interleaving {
  import opened Basics
  import opened InputTypes
  import opened GateModel
  import opened GateInvariant
  import opened Keystrokes

  type Tid = nat

  /** What a request still has to inject, and what one batch of it is. */
  datatype Work =
    | ShortCall(op: MouseOp)
    | Pointer(steps: seq<PointerStep>)
    | Keys(strokes: seq<Stroke>)

  /** Where a request stands in `mouse` or `type_keys`. */
  datatype Pc =
    | Fresh      // before the epoch is captured
    | Captured   // before the keyboard check
    | Watched    // the keyboard was there; before the cancel and stale checks
    | Waiting    // for the injection mutex
    | Holding    // the mutex is taken
    | Vetted     // the first cancel check under the mutex has passed
    | Arming     // the stretch has not ended
    | Armed      // `begin_inject` succeeded
    | AtCheck    // before the cancel check in front of a batch
    | Sending    // that check passed; the batch is on its way
    | Finishing  // nothing left to send
    | Recording  // the last cancel check passed
    | Releasing  // the release guard drops
    | Ending     // the inject guard drops
    | Unlocking  // the mutex guard drops
    | Done

  datatype Thread = Thread(pc: Pc, session: Session, work: Work, epoch: nat, generation: nat, seen: Phase)

  datatype Event =
    | Sent(tid: Tid, epoch: nat, batch: Work)
    | Released(tid: Tid)

  datatype System = System(
    gate: State, holder: Option<Tid>, threads: map<Tid, Thread>, log: seq<Event>, shutdown: bool)

  /**
   What the outside world decides in a step: refusals, delivery, clocks, what the pointer
   reads, and the phase a load of the word catches between two publications of a replay.
   */
  datatype Choice = Choice(
    refuse: bool, delivered: bool, now: Millis, clock: Millis, timeout: Millis,
    op: MouseOp, from: Option<Point>, at: Option<Point>, nowMs: nat, glimpse: Option<Phase>)

  datatype Action =
    | Spawn(tid: Tid, session: Session, work: Work)
    | Outside(step: Step)
    | Advance(tid: Tid, choice: Choice)

  function Take(steps: seq<PointerStep>): seq<PointerStep> {
    steps[..Least(|steps|, POINTER_BATCH)]
  }

  function FirstBatch(work: Work): Work {
    match work
    case ShortCall(_) => work
    case Pointer(steps) => Pointer(Take(steps))
    case Keys(strokes) => Keys(Taken(strokes, TYPE_CHUNK_KEYSTROKES))
  }

  function Remainder(work: Work): Work {
    match work
    case ShortCall(_) => work
    case Pointer(steps) => Pointer(steps[|Take(steps)|..])
    case Keys(strokes) =>
      TakenIsPrefix(strokes, TYPE_CHUNK_KEYSTROKES);
      Keys(strokes[|Taken(strokes, TYPE_CHUNK_KEYSTROKES)|..])
  }

  /** One short mouse call, 16 pointer steps, or 32 keystrokes. */
  predicate OneBatch(batch: Work) {
    match batch
    case ShortCall(_) => true
    case Pointer(steps) => |steps| <= POINTER_BATCH
    case Keys(strokes) => Count(strokes) <= TYPE_CHUNK_KEYSTROKES
  }

  // ----- steps

  function Goes(y: System, tid: Tid, thread: Thread): System {
    y.(threads := y.threads[tid := thread])
  }

  /** The gate step an action performs, if it performs one. */
  function GateStep(y: System, action: Action): Option<Step> {
    match action
    case Spawn(_, _, _) => None
    case Outside(step) =>
      match step {
        case Begin(_, _, _) => None
        case End(_, _) => None
        case Mouse(_, _, _, _, _, _) => None
        case Type(_, _, _, _, _) => None
        case FinishClosed(_) => if y.holder.None? then Some(step) else None
        case ResetForShutdown => if y.shutdown then Some(step) else None
        case _ => Some(step)
      }
    case Advance(tid, c) =>
      if tid !in y.threads then None
      else
        var th := y.threads[tid];
        match th.pc {
          case Arming => Some(Begin(th.session, th.epoch, c.clock))
          case Recording =>
            Some(if th.work.Keys? then Type(th.session, c.at, th.generation, c.nowMs, c.clock)
                 else Mouse(th.session, c.op, c.from, th.generation, c.nowMs, c.clock))
          case Ending => Some(End(c.now, c.clock))
          case _ => None
        }
  }

  /**
   What a request without the mutex loads: the word, or one that a replay publishes on its
   way, with any phase and the epoch of them all. The mutex holder never loads amid a
   replay: the replay is its own.
   */
  function Loaded(y: System, c: Choice): nat {
    if c.glimpse.Some? then PackSnap(y.gate.epoch, c.glimpse.value) else y.gate.word
  }

  function NextPc(y: System, th: Thread, c: Choice): Pc {
    var cancelled := Cancelled(th.epoch, y.gate.word);
    match th.pc
    case Fresh => Captured
    case Captured => if c.refuse || !y.gate.keyboard then Done else Watched
    case Watched => if c.refuse || Cancelled(th.epoch, Loaded(y, c)) then Done else Waiting
    case Waiting => if y.holder.None? then Holding else Waiting
    case Holding => if c.refuse || cancelled then Unlocking else Vetted
    case Vetted => if StaleReentry(y.gate, c.now, c.timeout) then Unlocking else Arming
    case Arming => if BeginInject(y.gate, th.session, th.epoch, c.clock).1.Some? then Armed else Unlocking
    case Armed => if c.refuse then Releasing else AtCheck
    case AtCheck =>
      if th.work.Keys? && th.work.strokes == [] then Finishing
      else if cancelled then Releasing
      else if th.work.Pointer? && th.work.steps == [] then Finishing
      else Sending
    case Sending => if !c.delivered then Releasing else if th.work.ShortCall? then Finishing else AtCheck
    case Finishing => if cancelled then Releasing else Recording
    case Recording => Releasing
    case Releasing => Ending
    case Ending => Unlocking
    case Unlocking => Done
    case Done => Done
  }

  function NextThread(y: System, th: Thread, c: Choice): Thread {
    th.(pc := NextPc(y, th, c),
        epoch := if th.pc == Fresh then UnpackSnap(Loaded(y, c)).0 else th.epoch,
        seen := if th.pc == Vetted then y.gate.phase else th.seen,
        generation := if th.pc == Armed then y.gate.generation else th.generation,
        work := if th.pc == Sending && c.delivered then Remainder(th.work) else th.work)
  }

  function Act(y: System, action: Action): System {
    var step := GateStep(y, action);
    var gate := if step.Some? then Next(y.gate, step.value) else y.gate;
    match action
    case Spawn(tid, session, work) =>
      if tid in y.threads then y else Goes(y, tid, Thread(Fresh, session, work, 0, 0, Off))
    case Outside(_) =>
      y.(gate := gate, shutdown := y.shutdown || step == Some(CancelForShutdown))
    case Advance(tid, c) =>
      if tid !in y.threads then y
      else
        var th := y.threads[tid];
        Goes(y, tid, NextThread(y, th, c)).(
        gate := gate,
        holder := if th.pc == Waiting && y.holder.None? then Some(tid)
                  else if th.pc == Unlocking then None
                  else y.holder,
        log := if th.pc == Sending then y.log + [Sent(tid, th.epoch, FirstBatch(th.work))]
               else if th.pc == Releasing then y.log + [Released(tid)]
               else y.log)
  }

  function Acts(y: System, actions: seq<Action>): System
    decreases |actions|
  {
    if actions == [] then y else Acts(Act(y, actions[0]), actions[1..])
  }

  // ----- the protocol invariant

  predicate UnderMutex(pc: Pc) {
    pc != Fresh && pc != Captured && pc != Watched && pc != Waiting && pc != Done
  }

  /** Between `begin_inject` and `end_inject`. */
  predicate InBracket(pc: Pc) {
    pc == Armed || pc == AtCheck || pc == Sending || pc == Finishing || pc == Recording || pc == Releasing ||
    pc == Ending
  }

  predicate Injecting(y: System) {
    y.holder.Some? && y.holder.value in y.threads && InBracket(y.threads[y.holder.value].pc)
  }

  /** The mutex is held by exactly the one thread that is past taking it. */
  ghost predicate MutexInv(y: System) {
    && (forall t :: t in y.threads && UnderMutex(y.threads[t].pc) ==> y.holder == Some(t))
    && (y.holder.Some? ==> y.holder.value in y.threads && UnderMutex(y.threads[y.holder.value].pc))
  }

  /** Without shutdown, the gate is injecting exactly while the mutex holder is in its bracket. */
  ghost predicate BracketInv(y: System) {
    !y.shutdown ==>
      && (y.gate.injecting <==> Injecting(y))
      && (y.gate.injecting <==> y.gate.settledSeq < y.gate.injectSeq)
      && (y.gate.injecting ==> y.gate.session == Some(y.threads[y.holder.value].session))
  }

  /** A request past its checks still stands where they left it, as long as its epoch is current. */
  ghost predicate CheckInv(y: System) {
    !y.shutdown ==>
      forall t :: t in y.threads && y.threads[t].epoch == y.gate.epoch ==>
                    && (y.threads[t].pc == Vetted || y.threads[t].pc == Arming ==> y.gate.phase != Paused)
                    && (y.threads[t].pc == Arming && y.gate.phase == Off ==> y.threads[t].seen == Off)
  }

  ghost predicate EpochInv(y: System) {
    forall t :: t in y.threads && y.threads[t].pc != Fresh ==> y.threads[t].epoch <= y.gate.epoch
  }

  ghost predicate LogInv(y: System) {
    forall i :: 0 <= i < |y.log| && y.log[i].Sent? ==> OneBatch(y.log[i].batch)
  }

  ghost predicate ProtocolInv(y: System) {
    Inv(y.gate) && MutexInv(y) && BracketInv(y) && CheckInv(y) && EpochInv(y) && LogInv(y)
  }

  lemma ProtocolStarts()
    ensures ProtocolInv(System(INITIAL, None, map[], [], false))
  {
  }

  lemma GateMoves(y: System, action: Action)
    ensures Act(y, action).gate ==
            match GateStep(y, action) { case Some(step) => Next(y.gate, step) case None => y.gate }
  {
  }

  /** A step takes a thread past the mutex only by taking it, and back only by giving it up. */
  lemma PassesMutex(y: System, th: Thread, c: Choice)
    ensures UnderMutex(NextPc(y, th, c)) <==>
            (UnderMutex(th.pc) && th.pc != Unlocking) || (th.pc == Waiting && y.holder.None?)
  {
  }

  lemma AdvanceKeepsMutex(y: System, tid: Tid, c: Choice)
    requires MutexInv(y) && tid in y.threads
    ensures MutexInv(Act(y, Advance(tid, c)))
  {
    var z := Act(y, Advance(tid, c));
    PassesMutex(y, y.threads[tid], c);
    assert z.threads == y.threads[tid := NextThread(y, y.threads[tid], c)];
    assert z.threads[tid].pc == NextPc(y, y.threads[tid], c);
  }

  lemma MutexKept(y: System, action: Action)
    requires MutexInv(y)
    ensures MutexInv(Act(y, action))
  {
    match action
    case Advance(tid, c) =>
      if tid in y.threads {
        AdvanceKeepsMutex(y, tid, c);
      }
    case _ =>
  }

  ghost predicate BracketStays(s: State, t: State) {
    && t.injecting == s.injecting && t.injectSeq == s.injectSeq && t.settledSeq == s.settledSeq
    && (s.injecting ==> t.session == s.session && (t.phase == s.phase || t.phase == Paused))
  }

  lemma AskKeepsBracket(s: State, r: Request)
    ensures BracketStays(s, ControlAutomation(s, r).0)
  {
  }

  /** A step from outside a bracket neither opens nor closes it; inside, it can only pause. */
  lemma OutsideKeepsBracket(s: State, step: Step)
    requires Inv(s)
    requires !step.Begin? && !step.End? && !step.Mouse? && !step.Type? && !step.ResetForShutdown?
    ensures BracketStays(s, Next(s, step))
  {
    match step
    case Ask(r) => AskKeepsBracket(s, r);
    case _ =>
  }

  /** Within one epoch and outside a bracket, no step pauses the gate, and only a paused gate falls to off. */
  lemma SameEpochSamePhase(s: State, step: Step)
    requires Inv(s) && !s.injecting
    requires !step.Begin? && !step.End? && !step.Mouse? && !step.Type? && !step.ResetForShutdown? && !step.FinishClosed?
    requires Next(s, step).epoch == s.epoch
    ensures Next(s, step).phase == Paused ==> s.phase == Paused
    ensures Next(s, step).phase == Off ==> s.phase != Running
  {
  }

  lemma OutsideKeepsBracketInv(y: System, step: Step)
    requires ProtocolInv(y)
    ensures BracketInv(Act(y, Outside(step)))
  {
    if GateStep(y, Outside(step)).Some? && !step.ResetForShutdown? {
      OutsideKeepsBracket(y.gate, step);
    }
  }

  /** Steps of a thread that leave the gate alone keep the bracket, or take and give back the mutex outside it. */
  lemma QuietAdvanceKeepsBracket(y: System, tid: Tid, c: Choice)
    requires ProtocolInv(y) && tid in y.threads && GateStep(y, Advance(tid, c)).None?
    ensures BracketInv(Act(y, Advance(tid, c)))
  {
  }

  lemma GateAdvanceKeepsBracket(y: System, tid: Tid, c: Choice)
    requires ProtocolInv(y) && tid in y.threads && GateStep(y, Advance(tid, c)).Some?
    ensures BracketInv(Act(y, Advance(tid, c)))
  {
    var th := y.threads[tid];
    assert y.holder == Some(tid);
    match th.pc
    case Ending => FinishKeepsInv(y.gate, c.now, c.clock);
    case Recording => RecordKeepsBracket(y.gate, GateStep(y, Advance(tid, c)).value);
    case _ =>
  }

  lemma RecordKeepsBracket(s: State, step: Step)
    requires step.Mouse? || step.Type?
    ensures var t := Next(s, step);
            && t.injecting == s.injecting && t.injectSeq == s.injectSeq && t.settledSeq == s.settledSeq
            && (t.session == s.session || t.session == Some(step.session))
  {
  }

  lemma BracketKept(y: System, action: Action)
    requires ProtocolInv(y)
    ensures BracketInv(Act(y, action))
  {
    match action
    case Spawn(_, _, _) =>
    case Outside(step) => OutsideKeepsBracketInv(y, step);
    case Advance(tid, c) =>
      if tid in y.threads {
        if GateStep(y, action).None? {
          QuietAdvanceKeepsBracket(y, tid, c);
        } else {
          GateAdvanceKeepsBracket(y, tid, c);
        }
      }
  }

  lemma GateMovesForward(y: System, action: Action)
    requires Inv(y.gate)
    ensures y.gate.epoch <= Act(y, action).gate.epoch && Inv(Act(y, action).gate)
  {
    GateMoves(y, action);
    if GateStep(y, action).Some? {
      NextMovesForward(y.gate, GateStep(y, action).value);
      NextKeepsInv(y.gate, GateStep(y, action).value);
    }
  }

  lemma CapturesTheEpoch(y: System, th: Thread, c: Choice)
    requires Inv(y.gate) && (th.pc != Fresh ==> th.epoch <= y.gate.epoch)
    ensures NextThread(y, th, c).epoch <= y.gate.epoch
  {
    UnpackPack(y.gate.epoch, y.gate.phase);
    if c.glimpse.Some? {
      UnpackPack(y.gate.epoch, c.glimpse.value);
    }
  }

  lemma EpochsKept(y: System, action: Action)
    requires Inv(y.gate) && EpochInv(y)
    ensures EpochInv(Act(y, action)) && y.gate.epoch <= Act(y, action).gate.epoch && Inv(Act(y, action).gate)
  {
    GateMovesForward(y, action);
    match action
    case Advance(tid, c) =>
      if tid in y.threads {
        CapturesTheEpoch(y, y.threads[tid], c);
        assert Act(y, action).threads == y.threads[tid := NextThread(y, y.threads[tid], c)];
      }
    case _ =>
  }

  ghost predicate StandsChecked(y: System, t: Tid)
    requires t in y.threads
  {
    y.threads[t].epoch == y.gate.epoch ==>
      && (y.threads[t].pc == Vetted || y.threads[t].pc == Arming ==> y.gate.phase != Paused)
      && (y.threads[t].pc == Arming && y.gate.phase == Off ==> y.threads[t].seen == Off)
  }

  lemma OutsideKeepsCheck(y: System, step: Step, t: Tid)
    requires ProtocolInv(y) && t in y.threads && !Act(y, Outside(step)).shutdown
    requires y.threads[t].pc == Vetted || y.threads[t].pc == Arming
    ensures StandsChecked(Act(y, Outside(step)), t)
  {
    EpochsKept(y, Outside(step));
    if GateStep(y, Outside(step)).Some? && Next(y.gate, step).epoch == y.gate.epoch {
      SameEpochSamePhase(y.gate, step);
    }
  }

  /** A gate step of one thread finds no other past the mutex. */
  lemma OtherKeepsCheck(y: System, tid: Tid, c: Choice, t: Tid)
    requires ProtocolInv(y) && t in y.threads && tid in y.threads && t != tid && !y.shutdown
    ensures StandsChecked(Act(y, Advance(tid, c)), t)
  {
    var z := Act(y, Advance(tid, c));
    assert z.threads[t] == y.threads[t];
    if GateStep(y, Advance(tid, c)).Some? {
      assert y.holder == Some(tid);
    }
  }

  lemma PassesChecks(y: System, th: Thread, c: Choice)
    requires Inv(y.gate)
    ensures NextPc(y, th, c) == Vetted ==> th.pc == Holding && y.gate.phase != Paused
    ensures NextPc(y, th, c) == Arming ==> th.pc == Vetted
  {
    UnpackPack(y.gate.epoch, y.gate.phase);
  }

  lemma OwnKeepsCheck(y: System, tid: Tid, c: Choice)
    requires ProtocolInv(y) && tid in y.threads && !y.shutdown
    ensures StandsChecked(Act(y, Advance(tid, c)), tid)
  {
    var th, z := y.threads[tid], Act(y, Advance(tid, c));
    PassesChecks(y, th, c);
    assert z.threads[tid] == NextThread(y, th, c);
    if th.pc == Holding || th.pc == Vetted {
      assert GateStep(y, Advance(tid, c)).None? && z.gate == y.gate;
    }
  }

  lemma AdvanceKeepsCheck(y: System, tid: Tid, c: Choice, t: Tid)
    requires ProtocolInv(y) && t in y.threads && tid in y.threads && !y.shutdown
    ensures StandsChecked(Act(y, Advance(tid, c)), t)
  {
    if t == tid {
      OwnKeepsCheck(y, tid, c);
    } else {
      OtherKeepsCheck(y, tid, c, t);
    }
  }

  lemma CheckKept(y: System, action: Action)
    requires ProtocolInv(y)
    ensures CheckInv(Act(y, action))
  {
    var z := Act(y, action);
    if !z.shutdown {
      forall t | t in z.threads
        ensures StandsChecked(z, t)
      {
        match action
        case Spawn(_, _, _) =>
        case Outside(step) =>
          if y.threads[t].pc == Vetted || y.threads[t].pc == Arming {
            OutsideKeepsCheck(y, step, t);
          }
        case Advance(tid, c) =>
          if tid in y.threads {
            AdvanceKeepsCheck(y, tid, c, t);
          }
      }
    }
  }

  lemma FirstBatchIsOne(work: Work)
    ensures OneBatch(FirstBatch(work))
  {
    if work.Keys? {
      TakenIsPrefix(work.strokes, TYPE_CHUNK_KEYSTROKES);
    }
  }

  lemma LogKept(y: System, action: Action)
    requires LogInv(y)
    ensures LogInv(Act(y, action))
  {
    if action.Advance? && action.tid in y.threads {
      var th := y.threads[action.tid];
      FirstBatchIsOne(th.work);
      assert Act(y, action).log ==
             y.log + if th.pc == Sending then [Sent(action.tid, th.epoch, FirstBatch(th.work))]
                     else if th.pc == Releasing then [Released(action.tid)] else [];
    }
  }

  /** Every interleaved step keeps the protocol invariant. */
  lemma ActKeepsInv(y: System, action: Action)
    requires ProtocolInv(y)
    ensures ProtocolInv(Act(y, action))
  {
    MutexKept(y, action);
    BracketKept(y, action);
    CheckKept(y, action);
    EpochsKept(y, action);
    LogKept(y, action);
  }

  lemma {:induction false} ActsKeepInv(y: System, actions: seq<Action>)
    requires ProtocolInv(y)
    ensures ProtocolInv(Acts(y, actions)) && y.gate.epoch <= Acts(y, actions).gate.epoch
    decreases |actions|
  {
    if actions != [] {
      ActKeepsInv(y, actions[0]);
      EpochsKept(y, actions[0]);
      ActsKeepInv(Act(y, actions[0]), actions[1..]);
    }
  }
}
