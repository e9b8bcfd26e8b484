/**
 What the desktop's log says of requests: they do not mix, each sends its own plan in
 order, everything it sends is released before it gives up the mutex, and a cancelled one
 records nothing.
 */
module RequestLog {
  import opened Basics
  import opened InputTypes
  import opened GateModel
  import opened GateInvariant
  import opened Keystrokes
  import opened Interleaving

  // ----- requests do not mix

  /** The request whose batches have not been released yet. */
  function OpenAt(log: seq<Event>): Option<Tid> {
    if log == [] || log[|log| - 1].Released? then None else Some(log[|log| - 1].tid)
  }

  /** Nothing is sent or released by another request while one is open. */
  ghost predicate InBlocks(log: seq<Event>) {
    forall i :: 0 <= i < |log| ==> OpenAt(log[..i]) == None || OpenAt(log[..i]) == Some(log[i].tid)
  }

  /** A release is the last word of its request. */
  ghost predicate ReleasedLast(log: seq<Event>) {
    forall i, j :: 0 <= i < j < |log| && log[i].Released? ==> log[j].tid != log[i].tid
  }

  /** Past its arming, with the guard still to drop. */
  predicate MayBeOpen(pc: Pc) {
    pc == AtCheck || pc == Sending || pc == Finishing || pc == Recording || pc == Releasing
  }

  predicate Over(pc: Pc) {
    pc == Ending || pc == Unlocking || pc == Done
  }

  ghost predicate ReleasedAfter(log: seq<Event>, i: nat, tid: Tid) {
    exists j :: i < j < |log| && log[j] == Released(tid)
  }

  /** What was sent is released later, or its request still has its guard. */
  ghost predicate SentIsReleased(log: seq<Event>, threads: map<Tid, Thread>) {
    forall i :: 0 <= i < |log| && log[i].Sent? ==>
                  log[i].tid in threads && (MayBeOpen(threads[log[i].tid].pc) || ReleasedAfter(log, i, log[i].tid))
  }

  ghost predicate ReleasedIsOver(log: seq<Event>, threads: map<Tid, Thread>) {
    forall i :: 0 <= i < |log| && log[i].Released? ==> log[i].tid in threads && Over(threads[log[i].tid].pc)
  }

  ghost predicate OpenMayBe(log: seq<Event>, threads: map<Tid, Thread>) {
    OpenAt(log).Some? ==> OpenAt(log).value in threads && MayBeOpen(threads[OpenAt(log).value].pc)
  }

  ghost predicate Blocks(log: seq<Event>, threads: map<Tid, Thread>) {
    InBlocks(log) && ReleasedLast(log) && OpenMayBe(log, threads) && ReleasedIsOver(log, threads) &&
    SentIsReleased(log, threads)
  }

  ghost predicate BlockInv(y: System) {
    Blocks(y.log, y.threads)
  }

  /** What one step of a thread does to its place. */
  lemma PlacesMove(y: System, th: Thread, c: Choice)
    ensures th.pc == Sending ==> MayBeOpen(NextPc(y, th, c))
    ensures MayBeOpen(th.pc) && th.pc != Releasing ==> MayBeOpen(NextPc(y, th, c))
    ensures NextPc(y, th, c) == Ending <==> th.pc == Releasing
    ensures Over(th.pc) ==> Over(NextPc(y, th, c))
  {
  }

  lemma OneMoreBlock(log: seq<Event>, event: Event)
    requires InBlocks(log) && ReleasedLast(log)
    requires OpenAt(log) == None || OpenAt(log) == Some(event.tid)
    requires forall i :: 0 <= i < |log| && log[i].Released? ==> log[i].tid != event.tid
    ensures InBlocks(log + [event]) && ReleasedLast(log + [event])
    ensures OpenAt(log + [event]) == if event.Sent? then Some(event.tid) else None
  {
    var longer := log + [event];
    forall i | 0 <= i < |longer|
      ensures OpenAt(longer[..i]) == None || OpenAt(longer[..i]) == Some(longer[i].tid)
    {
      assert longer[..i] == if i < |log| then log[..i] else log;
    }
  }

  lemma StillReleased(log: seq<Event>, event: Event, i: nat, tid: Tid)
    requires ReleasedAfter(log, i, tid)
    ensures ReleasedAfter(log + [event], i, tid)
  {
    var j :| i < j < |log| && log[j] == Released(tid);
    assert (log + [event])[j] == Released(tid);
  }

  /** The thread that sends or releases is the only one that can be open. */
  lemma OnlyTheHolderIsOpen(y: System, tid: Tid)
    requires MutexInv(y) && BlockInv(y) && tid in y.threads && MayBeOpen(y.threads[tid].pc)
    ensures OpenAt(y.log) == None || OpenAt(y.log) == Some(tid)
  {
    assert y.holder == Some(tid);
  }

  /** The next event's own request keeps its guard, or has just been released. */
  lemma NextIsReleased(log: seq<Event>, threads: map<Tid, Thread>, event: Event, th: Thread)
    requires SentIsReleased(log, threads) && event.tid in threads && (event.Sent? ==> MayBeOpen(th.pc))
    requires MayBeOpen(threads[event.tid].pc)
    ensures SentIsReleased(log + [event], threads[event.tid := th])
  {
    var log' := log + [event];
    forall i | 0 <= i < |log'| && log'[i].Sent?
      ensures log'[i].tid in threads
      ensures MayBeOpen(threads[event.tid := th][log'[i].tid].pc) || ReleasedAfter(log', i, log'[i].tid)
    {
      if log'[i].tid == event.tid {
        if event.Released? {
          assert log'[|log|] == Released(event.tid);
        }
      } else if ReleasedAfter(log, i, log[i].tid) {
        StillReleased(log, event, i, log[i].tid);
      }
    }
  }

  lemma NextKeepsBlocks(log: seq<Event>, threads: map<Tid, Thread>, event: Event, th: Thread)
    requires Blocks(log, threads) && event.tid in threads && MayBeOpen(threads[event.tid].pc)
    requires if event.Sent? then MayBeOpen(th.pc) else th.pc == Ending
    requires OpenAt(log) == None || OpenAt(log) == Some(event.tid)
    ensures Blocks(log + [event], threads[event.tid := th])
  {
    OneMoreBlock(log, event);
    NextIsReleased(log, threads, event, th);
  }

  lemma LoggedKeepsBlocks(y: System, tid: Tid, c: Choice)
    requires MutexInv(y) && BlockInv(y) && tid in y.threads
    requires y.threads[tid].pc == Sending || y.threads[tid].pc == Releasing
    ensures BlockInv(Act(y, Advance(tid, c)))
  {
    var th, z := y.threads[tid], Act(y, Advance(tid, c));
    PlacesMove(y, th, c);
    OnlyTheHolderIsOpen(y, tid);
    assert z.threads == y.threads[tid := NextThread(y, th, c)];
    var event := if th.pc == Sending then Sent(tid, th.epoch, FirstBatch(th.work)) else Released(tid);
    NextKeepsBlocks(y.log, y.threads, event, NextThread(y, th, c));
  }

  lemma QuietKeepsBlocks(y: System, tid: Tid, c: Choice)
    requires BlockInv(y) && tid in y.threads && y.threads[tid].pc != Sending && y.threads[tid].pc != Releasing
    ensures BlockInv(Act(y, Advance(tid, c)))
  {
    var z := Act(y, Advance(tid, c));
    assert z.log == y.log && z.threads == y.threads[tid := NextThread(y, y.threads[tid], c)];
    PlacesMove(y, y.threads[tid], c);
  }

  lemma BlocksKept(y: System, action: Action)
    requires MutexInv(y) && BlockInv(y)
    ensures BlockInv(Act(y, action))
  {
    match action
    case Advance(tid, c) =>
      if tid in y.threads {
        if y.threads[tid].pc == Sending || y.threads[tid].pc == Releasing {
          LoggedKeepsBlocks(y, tid, c);
        } else {
          QuietKeepsBlocks(y, tid, c);
        }
      }
    case _ =>
  }

  /**
   Over every interleaving of any number of requests and controls: between a request's
   first batch and its release no other request sends or releases anything, each is
   released at most once, with its last word, and one that is done has been released after
   everything it sent.
   */
  lemma {:induction false} RequestsDoNotMix(y: System, actions: seq<Action>)
    requires ProtocolInv(y) && BlockInv(y)
    ensures ProtocolInv(Acts(y, actions)) && BlockInv(Acts(y, actions))
    decreases |actions|
  {
    if actions != [] {
      ActKeepsInv(y, actions[0]);
      BlocksKept(y, actions[0]);
      RequestsDoNotMix(Act(y, actions[0]), actions[1..]);
    }
  }

  // ----- each sends its own plan

  /** The strokes among the batches of one request, in order. */
  function KeysSent(log: seq<Event>, tid: Tid): seq<Stroke> {
    if log == [] then []
    else
      var before, last := KeysSent(log[..|log| - 1], tid), log[|log| - 1];
      if last.Sent? && last.tid == tid && last.batch.Keys? then before + last.batch.strokes else before
  }

  function StepsSent(log: seq<Event>, tid: Tid): seq<PointerStep> {
    if log == [] then []
    else
      var before, last := StepsSent(log[..|log| - 1], tid), log[|log| - 1];
      if last.Sent? && last.tid == tid && last.batch.Pointer? then before + last.batch.steps else before
  }

  function CallsSent(log: seq<Event>, tid: Tid): seq<MouseOp> {
    if log == [] then []
    else
      var before, last := CallsSent(log[..|log| - 1], tid), log[|log| - 1];
      if last.Sent? && last.tid == tid && last.batch.ShortCall? then before + [last.batch.op] else before
  }

  /** Nothing is left of the request but its record. */
  predicate AllSent(pc: Pc) {
    pc == Finishing || pc == Recording
  }

  predicate Ended(pc: Pc) {
    pc == Releasing || Over(pc)
  }

  /**
   The batches of a request so far: with what it still has to send its whole plan, a prefix
   of it once the request has ended, and all of it where it goes on to record.
   */
  ghost predicate OnPlan(th: Thread, log: seq<Event>, tid: Tid, plan: Work) {
    match plan
    case Keys(strokes) =>
      && th.work.Keys? && KeysSent(log, tid) <= strokes
      && (!Ended(th.pc) ==> KeysSent(log, tid) + th.work.strokes == strokes)
      && (AllSent(th.pc) ==> KeysSent(log, tid) == strokes)
    case Pointer(steps) =>
      && th.work.Pointer? && StepsSent(log, tid) <= steps
      && (!Ended(th.pc) ==> StepsSent(log, tid) + th.work.steps == steps)
      && (AllSent(th.pc) ==> StepsSent(log, tid) == steps)
    case ShortCall(op) =>
      && th.work == plan && CallsSent(log, tid) <= [op]
      && (!Ended(th.pc) && !AllSent(th.pc) ==> CallsSent(log, tid) == [])
      && (AllSent(th.pc) ==> CallsSent(log, tid) == [op])
  }

  ghost predicate SendsItsPlan(y: System, tid: Tid, plan: Work) {
    tid in y.threads && OnPlan(y.threads[tid], y.log, tid, plan)
  }

  lemma SentSnoc(log: seq<Event>, event: Event, tid: Tid)
    ensures var own := event.Sent? && event.tid == tid;
            && KeysSent(log + [event], tid) ==
               KeysSent(log, tid) + (if own && event.batch.Keys? then event.batch.strokes else [])
            && StepsSent(log + [event], tid) ==
               StepsSent(log, tid) + (if own && event.batch.Pointer? then event.batch.steps else [])
            && CallsSent(log + [event], tid) ==
               CallsSent(log, tid) + (if own && event.batch.ShortCall? then [event.batch.op] else [])
  {
    assert (log + [event])[..|log|] == log;
  }

  /** Another request's step changes nothing of this one. */
  lemma OthersKeepPlan(y: System, tid: Tid, action: Action, plan: Work)
    requires SendsItsPlan(y, tid, plan) && !(action.Advance? && action.tid == tid)
    ensures SendsItsPlan(Act(y, action), tid, plan)
  {
    if action.Advance? && action.tid in y.threads {
      var th := y.threads[action.tid];
      SentSnoc(y.log, Sent(action.tid, th.epoch, FirstBatch(th.work)), tid);
      SentSnoc(y.log, Released(action.tid), tid);
    }
  }

  /** What remains after a batch is the rest of the plan. */
  lemma BatchAndRemainder(work: Work)
    ensures work.Keys? ==> FirstBatch(work).Keys? && Remainder(work).Keys? &&
                           FirstBatch(work).strokes + Remainder(work).strokes == work.strokes
    ensures work.Pointer? ==> FirstBatch(work).Pointer? && Remainder(work).Pointer? &&
                              FirstBatch(work).steps + Remainder(work).steps == work.steps
    ensures work.ShortCall? ==> FirstBatch(work) == Remainder(work) == work
  {
    if work.Keys? {
      TakenIsPrefix(work.strokes, TYPE_CHUNK_KEYSTROKES);
    }
  }

  lemma PrefixGrows<T>(sent: seq<T>, batch: seq<T>, rest: seq<T>, left: seq<T>, plan: seq<T>)
    requires sent + left == plan && batch + rest == left
    ensures (sent + batch) + rest == plan && sent + batch <= plan
  {
  }

  lemma SentStaysOnPlan(th: Thread, th': Thread, log: seq<Event>, tid: Tid, plan: Work)
    requires OnPlan(th, log, tid, plan) && th.pc == Sending
    requires if th'.pc == Releasing then th'.work == th.work
             else th'.work == Remainder(th.work) && th'.pc == if th.work.ShortCall? then Finishing else AtCheck
    ensures OnPlan(th', log + [Sent(tid, th.epoch, FirstBatch(th.work))], tid, plan)
  {
    var batch, rest := FirstBatch(th.work), Remainder(th.work);
    SentSnoc(log, Sent(tid, th.epoch, batch), tid);
    BatchAndRemainder(th.work);
    match plan
    case Keys(strokes) => PrefixGrows(KeysSent(log, tid), batch.strokes, rest.strokes, th.work.strokes, strokes);
    case Pointer(steps) => PrefixGrows(StepsSent(log, tid), batch.steps, rest.steps, th.work.steps, steps);
    case ShortCall(_) =>
  }

  lemma SendKeepsPlan(y: System, tid: Tid, c: Choice, plan: Work)
    requires SendsItsPlan(y, tid, plan) && y.threads[tid].pc == Sending
    ensures SendsItsPlan(Act(y, Advance(tid, c)), tid, plan)
  {
    var th := y.threads[tid];
    SentStaysOnPlan(th, NextThread(y, th, c), y.log, tid, plan);
    assert Act(y, Advance(tid, c)).threads[tid] == NextThread(y, th, c);
  }

  lemma OwnKeepsPlan(y: System, tid: Tid, c: Choice, plan: Work)
    requires SendsItsPlan(y, tid, plan) && y.threads[tid].pc != Sending
    ensures SendsItsPlan(Act(y, Advance(tid, c)), tid, plan)
  {
    var th := y.threads[tid];
    SentSnoc(y.log, Released(tid), tid);
    assert Act(y, Advance(tid, c)).threads[tid] == NextThread(y, th, c);
  }

  /** Over every interleaving, from its arrival on, a request sends its plan: in order, without gaps, nothing twice. */
  lemma {:induction false} EverySendIsPlanned(y: System, actions: seq<Action>, tid: Tid, plan: Work)
    requires SendsItsPlan(y, tid, plan)
    ensures SendsItsPlan(Acts(y, actions), tid, plan)
    decreases |actions|
  {
    if actions != [] {
      match actions[0] {
        case Advance(t, c) =>
          if t != tid {
            OthersKeepPlan(y, tid, actions[0], plan);
          } else if y.threads[tid].pc == Sending {
            SendKeepsPlan(y, tid, c, plan);
          } else {
            OwnKeepsPlan(y, tid, c, plan);
          }
        case _ => OthersKeepPlan(y, tid, actions[0], plan);
      }
      EverySendIsPlanned(Act(y, actions[0]), actions[1..], tid, plan);
    }
  }

  lemma {:induction false} NothingSentYet(log: seq<Event>, tid: Tid)
    requires forall i :: 0 <= i < |log| ==> log[i].tid != tid
    ensures KeysSent(log, tid) == [] && StepsSent(log, tid) == [] && CallsSent(log, tid) == []
    decreases |log|
  {
    if log != [] {
      NothingSentYet(log[..|log| - 1], tid);
    }
  }

  /** A request that has just arrived has sent nothing. */
  lemma ArrivalStartsItsPlan(y: System, tid: Tid, session: Session, plan: Work)
    requires BlockInv(y) && tid !in y.threads
    ensures SendsItsPlan(Act(y, Spawn(tid, session, plan)), tid, plan)
  {
    NothingSentYet(y.log, tid);
  }

  // ----- a cancelled request records nothing

  /** The request is cancelled by its epoch and not on the way to its record. */
  ghost predicate CannotRecord(y: System, tid: Tid) {
    tid in y.threads && y.threads[tid].pc != Fresh && y.threads[tid].pc != Recording &&
    y.threads[tid].epoch < y.gate.epoch < EPOCH_LIMIT
  }

  lemma CancelledGoesElsewhere(y: System, th: Thread, c: Choice)
    requires Inv(y.gate) && th.pc != Fresh && th.epoch < y.gate.epoch < EPOCH_LIMIT
    ensures NextPc(y, th, c) != Recording && NextPc(y, th, c) != Fresh && NextThread(y, th, c).epoch == th.epoch
  {
    UnpackPack(y.gate.epoch, y.gate.phase);
  }

  lemma StaysUnrecorded(y: System, action: Action, tid: Tid)
    requires ProtocolInv(y) && CannotRecord(y, tid) && Act(y, action).gate.epoch < EPOCH_LIMIT
    ensures CannotRecord(Act(y, action), tid)
  {
    var z := Act(y, action);
    EpochsKept(y, action);
    if action.Advance? && action.tid in y.threads {
      assert z.threads == y.threads[action.tid := NextThread(y, y.threads[action.tid], action.choice)];
      if action.tid == tid {
        CancelledGoesElsewhere(y, y.threads[tid], action.choice);
      }
    }
  }

  /** Once the epoch has moved past a request that is not just recording, it never records, whatever follows. */
  lemma {:induction false} CancelledNeverRecords(y: System, actions: seq<Action>, tid: Tid)
    requires ProtocolInv(y) && CannotRecord(y, tid) && Acts(y, actions).gate.epoch < EPOCH_LIMIT
    ensures CannotRecord(Acts(y, actions), tid)
    decreases |actions|
  {
    if actions != [] {
      ActKeepsInv(y, actions[0]);
      ActsKeepInv(Act(y, actions[0]), actions[1..]);
      StaysUnrecorded(y, actions[0], tid);
      CancelledNeverRecords(Act(y, actions[0]), actions[1..], tid);
    }
  }

  // ----- a drive is recorded under the generation it was captured in

  predicate HasGeneration(pc: Pc) {
    pc == AtCheck || pc == Sending || pc == Finishing || pc == Recording
  }

  ghost predicate GenerationInv(y: System) {
    !y.shutdown ==>
      forall t :: t in y.threads && HasGeneration(y.threads[t].pc) ==> y.threads[t].generation == y.gate.generation
  }

  lemma OutsideKeepsGeneration(s: State, step: Step)
    requires Inv(s) && s.injecting
    requires !step.Begin? && !step.End? && !step.ResetForShutdown?
    ensures Next(s, step).generation == s.generation
  {
    GenerationMovesExactly(s, step);
  }

  lemma GenerationKept(y: System, action: Action)
    requires ProtocolInv(y) && GenerationInv(y)
    ensures GenerationInv(Act(y, action))
  {
    var z := Act(y, action);
    ActKeepsInv(y, action);
    GateMoves(y, action);
    if !z.shutdown {
      forall t | t in z.threads && HasGeneration(z.threads[t].pc)
        ensures z.threads[t].generation == z.gate.generation
      {
        assert z.holder == Some(t);
        GenerationKeptFor(y, action, t);
      }
    }
  }

  lemma OutsideKeepsGenerationOf(y: System, step: Step, t: Tid)
    requires ProtocolInv(y) && GenerationInv(y) && !Act(y, Outside(step)).shutdown
    requires t in y.threads && HasGeneration(y.threads[t].pc)
    ensures Act(y, Outside(step)).gate.generation == y.gate.generation
  {
    assert Injecting(y);
    if GateStep(y, Outside(step)).Some? {
      OutsideKeepsGeneration(y.gate, step);
    }
  }

  lemma AdvanceKeepsGenerationOf(y: System, tid: Tid, c: Choice, t: Tid)
    requires ProtocolInv(y) && GenerationInv(y) && !y.shutdown && tid in y.threads
    requires MutexInv(Act(y, Advance(tid, c)))
    requires t in Act(y, Advance(tid, c)).threads && HasGeneration(Act(y, Advance(tid, c)).threads[t].pc)
    ensures Act(y, Advance(tid, c)).threads[t].generation == Act(y, Advance(tid, c)).gate.generation
  {
    var z := Act(y, Advance(tid, c));
    assert z.threads == y.threads[tid := NextThread(y, y.threads[tid], c)];
    if tid != t {
      assert y.holder == Some(t);
    }
  }

  lemma GenerationKeptFor(y: System, action: Action, t: Tid)
    requires ProtocolInv(y) && GenerationInv(y) && !Act(y, action).shutdown
    requires t in Act(y, action).threads && HasGeneration(Act(y, action).threads[t].pc)
    requires MutexInv(Act(y, action))
    ensures Act(y, action).threads[t].generation == Act(y, action).gate.generation
  {
    match action
    case Spawn(_, _, _) =>
    case Outside(step) => OutsideKeepsGenerationOf(y, step, t);
    case Advance(tid, c) =>
      if tid in y.threads {
        AdvanceKeepsGenerationOf(y, tid, c, t);
      }
  }

  /**
   Over every interleaving without shutdown: a request that comes to its record finds the
   generation it captured, so the record lands exactly if the gate is not paused.
   */
  lemma RecordLandsUnlessPaused(y: System, actions: seq<Action>, tid: Tid)
    requires ProtocolInv(y) && GenerationInv(y) && !Acts(y, actions).shutdown
    requires tid in Acts(y, actions).threads && Acts(y, actions).threads[tid].pc == Recording
    ensures var z := Acts(y, actions);
            Accepts(z.gate, z.threads[tid].generation) <==> z.gate.phase != Paused
    decreases |actions|
  {
    if actions != [] {
      ActKeepsInv(y, actions[0]);
      GenerationKept(y, actions[0]);
      RecordLandsUnlessPaused(Act(y, actions[0]), actions[1..], tid);
    }
  }

  /** A request that captured its generation before the gate was reset. */
  ghost predicate Outdated(y: System, tid: Tid) {
    tid in y.threads && HasGeneration(y.threads[tid].pc) && y.threads[tid].generation < y.gate.generation
  }

  lemma StaysOutdated(y: System, action: Action, tid: Tid)
    requires ProtocolInv(y) && Outdated(y, tid)
    requires tid in Act(y, action).threads && HasGeneration(Act(y, action).threads[tid].pc)
    ensures Outdated(Act(y, action), tid)
  {
    GateMoves(y, action);
    if GateStep(y, action).Some? {
      NextMovesForward(y.gate, GateStep(y, action).value);
    }
    if action.Advance? && action.tid == tid {
      assert Act(y, action).threads[tid] == NextThread(y, y.threads[tid], action.choice);
    }
  }

  lemma OutdatedRecordsNothing(y: System, tid: Tid, c: Choice)
    requires Outdated(y, tid) && y.threads[tid].pc == Recording
    ensures Act(y, Advance(tid, c)).gate == y.gate
  {
  }

  lemma OutOfTheBracketForGood(y: System, th: Thread, c: Choice)
    requires th.pc == Recording || Ended(th.pc)
    ensures Ended(NextPc(y, th, c))
  {
  }

  /** The record of a request changes nothing of the gate, whenever it comes. */
  predicate RecordsNothing(y: System, actions: seq<Action>, tid: Tid)
    decreases |actions|
  {
    actions == [] ||
    (var z := Act(y, actions[0]);
     (actions[0].Advance? && actions[0].tid == tid && tid in y.threads && y.threads[tid].pc == Recording ==>
        z.gate == y.gate) &&
     RecordsNothing(z, actions[1..], tid))
  }

  lemma {:induction false} EndedRecordsNothing(y: System, actions: seq<Action>, tid: Tid)
    requires tid in y.threads && Ended(y.threads[tid].pc)
    ensures RecordsNothing(y, actions, tid)
    decreases |actions|
  {
    if actions != [] {
      if actions[0].Advance? && actions[0].tid in y.threads {
        var t := actions[0].tid;
        assert Act(y, actions[0]).threads == y.threads[t := NextThread(y, y.threads[t], actions[0].choice)];
        OutOfTheBracketForGood(y, y.threads[tid], actions[0].choice);
      }
      EndedRecordsNothing(Act(y, actions[0]), actions[1..], tid);
    }
  }

  lemma StepOfOutdated(y: System, action: Action, tid: Tid)
    requires Outdated(y, tid)
    ensures tid in Act(y, action).threads
    ensures HasGeneration(Act(y, action).threads[tid].pc) || Ended(Act(y, action).threads[tid].pc)
  {
    if action.Advance? && action.tid in y.threads {
      var t := action.tid;
      assert Act(y, action).threads == y.threads[t := NextThread(y, y.threads[t], action.choice)];
    }
  }

  /** After a shutdown's reset, the requests still in their calls record nothing, over every interleaving. */
  lemma {:induction false} OutdatedNeverRecords(y: System, actions: seq<Action>, tid: Tid)
    requires ProtocolInv(y) && Outdated(y, tid)
    ensures RecordsNothing(y, actions, tid)
    decreases |actions|
  {
    if actions != [] {
      var z := Act(y, actions[0]);
      ActKeepsInv(y, actions[0]);
      StepOfOutdated(y, actions[0], tid);
      if actions[0].Advance? && actions[0].tid == tid && y.threads[tid].pc == Recording {
        OutdatedRecordsNothing(y, tid, actions[0].choice);
      }
      if HasGeneration(z.threads[tid].pc) {
        StaysOutdated(y, actions[0], tid);
        OutdatedNeverRecords(z, actions[1..], tid);
      } else {
        EndedRecordsNothing(z, actions[1..], tid);
      }
    }
  }

  lemma ResetOutdates(y: System, tid: Tid)
    requires ProtocolInv(y) && GenerationInv(y) && !y.shutdown
    requires tid in y.threads && HasGeneration(y.threads[tid].pc)
    ensures var z := Act(Act(y, Outside(CancelForShutdown)), Outside(ResetForShutdown));
            ProtocolInv(z) && Outdated(z, tid)
  {
    var cancelled := Act(y, Outside(CancelForShutdown));
    ActKeepsInv(y, Outside(CancelForShutdown));
    ActKeepsInv(cancelled, Outside(ResetForShutdown));
  }

  // ----- no batch is empty

  predicate RealWork(work: Work) {
    match work
    case ShortCall(_) => true
    case Pointer(steps) => steps != []
    case Keys(strokes) => strokes != []
  }

  ghost predicate NoEmptyBatch(y: System) {
    && (forall i :: 0 <= i < |y.log| && y.log[i].Sent? ==> RealWork(y.log[i].batch))
    && (forall t :: t in y.threads && y.threads[t].pc == Sending ==> RealWork(y.threads[t].work))
  }

  lemma FirstBatchIsReal(work: Work)
    requires RealWork(work)
    ensures RealWork(FirstBatch(work))
  {
    if work.Keys? {
      TakenIsPrefix(work.strokes, TYPE_CHUNK_KEYSTROKES);
    }
  }

  lemma OnlyRealWorkIsSent(y: System, th: Thread, c: Choice)
    requires NextPc(y, th, c) == Sending
    ensures RealWork(NextThread(y, th, c).work)
  {
  }

  lemma AdvanceSendsRealWork(y: System, tid: Tid, c: Choice)
    requires NoEmptyBatch(y) && tid in y.threads
    ensures NoEmptyBatch(Act(y, Advance(tid, c)))
  {
    var th, z := y.threads[tid], Act(y, Advance(tid, c));
    assert z.threads == y.threads[tid := NextThread(y, th, c)];
    if NextPc(y, th, c) == Sending {
      OnlyRealWorkIsSent(y, th, c);
    }
    if th.pc == Sending {
      FirstBatchIsReal(th.work);
    }
    assert z.log == y.log + if th.pc == Sending then [Sent(tid, th.epoch, FirstBatch(th.work))]
                            else if th.pc == Releasing then [Released(tid)] else [];
  }

  /** Over every interleaving no batch is empty: a request with nothing left goes on to finish. */
  lemma {:induction false} BatchesAreReal(y: System, actions: seq<Action>)
    requires NoEmptyBatch(y)
    ensures NoEmptyBatch(Acts(y, actions))
    decreases |actions|
  {
    if actions != [] {
      if actions[0].Advance? && actions[0].tid in y.threads {
        AdvanceSendsRealWork(y, actions[0].tid, actions[0].choice);
      }
      BatchesAreReal(Act(y, actions[0]), actions[1..]);
    }
  }

  /** All of it holds of an idle visor. */
  lemma IdleLog()
    ensures var y := System(INITIAL, None, map[], [], false);
            ProtocolInv(y) && BlockInv(y) && GenerationInv(y) && NoEmptyBatch(y)
  {
    ProtocolStarts();
  }
}
