/**
 Controls of the companion and of TCP clients, with or without a session, naming any, closes
 of any sessions and a lost keyboard, all during one call: every answer and the unwind, told
 exactly.
 */
module SeveralSessions {
  import opened Basics
  import opened GateModel
  import opened GateInvariant
  import opened DeferredQueue

  datatype Op = Post(request: Request) | CloseOf(session: Session) | LoseKeyboard

  function PostOp(s: State, op: Op): State {
    match op
    case Post(r) => ControlAutomation(s, r).0
    case CloseOf(session) => NoteSessionClosed(s, session)
    case LoseKeyboard => ReportKeyboard(s, false)
  }

  function PostOps(s: State, ops: seq<Op>): State {
    if ops == [] then s else PostOp(PostOps(s, ops[..|ops| - 1]), ops[|ops| - 1])
  }

  // ----- the account

  /** What a call will leave: the phase, the owner, and whether the stretch of its driver has ended. */
  datatype Tale = Tale(phase: Phase, owner: Option<Session>, ended: bool)

  /** The call under way: its session, the companion's last stored poll, and the keyboard at its start. */
  datatype Call = Call(driver: Session, poll: Option<Millis>, keyboard: bool)

  /** A call that has just armed, with or without the keyboard. */
  ghost predicate Armed(s: State, call: Call) {
    && Inv(s) && s.injecting && s.queue == [] && s.phase == Running && s.session == Some(call.driver)
    && s.lastPoll == call.poll && s.keyboard == call.keyboard
  }

  const ENDED: Tale := Tale(Off, None, true)

  /** What the unwind finds: its clock, and whether the keyboard is still seen. */
  datatype Moment = Moment(now: Millis, keyboard: bool)

  /** An entry runs with the keyboard, for the companion, from running, or by a poll that is fresh at the time. */
  predicate Enters(tale: Tale, r: Request, call: Call, at: Moment) {
    at.keyboard && (r.companion || tale.phase == Running || Within(call.poll, at.now, r.timeout))
  }

  function TellPost(tale: Tale, r: Request, call: Call, at: Moment): Tale {
    match r.action
    case Stop => ENDED
    case Pause => tale.(phase := Paused)
    case Start =>
      if r.session.Some? && Enters(tale, r, call, at) then tale.(phase := Running, owner := r.session) else tale
    case Resume =>
      if tale.phase == Running then tale
      else if r.session.None? then if tale.phase == Paused && at.keyboard then ENDED else tale
      else if Enters(tale, r, call, at) then tale.(phase := Running, owner := r.session)
      else tale
  }

  /**
   One control at the unwind. A close counts for the driver only, while its stretch lasts
   and nobody else has taken over. A lost keyboard has already paused the display, and
   does nothing more in its turn.
   */
  function Tell(tale: Tale, op: Op, call: Call, at: Moment): Tale {
    match op
    case Post(r) => TellPost(tale, r, call, at)
    case CloseOf(session) =>
      if session == call.driver && !tale.ended && tale.owner == Some(session)
      then Tale(if tale.phase == Paused then Paused else Off, None, true) else tale
    case LoseKeyboard => tale
  }

  function TellAll(tale: Tale, ops: seq<Op>, call: Call, at: Moment): Tale {
    if ops == [] then tale else Tell(TellAll(tale, ops[..|ops| - 1], call, at), ops[|ops| - 1], call, at)
  }

  /** What pauses the display at once. */
  predicate IsPause(op: Op) {
    op.LoseKeyboard? || (op.Post? && op.request.action == Control.Pause)
  }

  /** The unwind starts from the phase on display, which any pause has already set. */
  function Live(ops: seq<Op>, call: Call): Tale {
    Tale(if exists i :: 0 <= i < |ops| && IsPause(ops[i]) then Paused else Running, Some(call.driver), false)
  }

  predicate KeyboardUp(ops: seq<Op>, call: Call) {
    call.keyboard && LoseKeyboard !in ops
  }

  /** What an unwind at `now` would leave after these controls. */
  function Told(ops: seq<Op>, call: Call, now: Millis): Tale {
    TellAll(Live(ops, call), ops, call, Moment(now, KeyboardUp(ops, call)))
  }

  /**
   The answer to one more control: no entry without a desktop or keyboard, TCP lifts no
   displayed pause, a start names a session, and an entry that names one would enter after
   those before it.
   */
  function Answer(ops: seq<Op>, r: Request, call: Call): Reply {
    var enters := r.action == Control.Start || r.action == Control.Resume;
    if enters && (r.wayland || r.keyboardBlocked) then NotImplemented
    else if r.action == Control.Pause then Accepted
    else if !r.companion && Live(ops, call).phase == Paused then Forbidden
    else if r.action == Control.Start && r.session == None then Refused(NeedsSession)
    else if enters && r.session.Some? && !r.companion && Told(ops, call, r.clock).phase != Running &&
            !Within(call.poll, r.now, r.timeout) then Refused(StalePoll)
    else Accepted
  }

  predicate Accepts(ops: seq<Op>, op: Op, call: Call) {
    op.Post? ==> Answer(ops, op.request, call) == Accepted
  }

  function AcceptedOps(ops: seq<Op>, call: Call): seq<Op> {
    if ops == [] then []
    else
      var before, last := AcceptedOps(ops[..|ops| - 1], call), ops[|ops| - 1];
      if Accepts(before, last, call) then before + [last] else before
  }

  // ----- what is queued

  /** A close of a session that is not driving queues nothing, nor does a keyboard already lost. */
  function Deferral(before: seq<Op>, op: Op, call: Call, generation: nat): Option<Deferred> {
    match op
    case CloseOf(session) => if session == call.driver then Some(Close(session, generation)) else None
    case LoseKeyboard => if KeyboardUp(before, call) then Some(KeyboardUnavailable) else None
    case Post(r) =>
      match r.action {
        case Start => if r.session.Some? then Some(Deferred.Start(r.session.value, r.companion, r.timeout)) else None
        case Resume => Some(Deferred.Resume(r.session, r.companion, r.timeout))
        case Pause => Some(Deferred.Pause)
        case Stop => Some(Deferred.Stop)
      }
  }

  function Deferrals(ops: seq<Op>, call: Call, generation: nat): seq<Deferred> {
    if ops == [] then []
    else
      var before := ops[..|ops| - 1];
      match Deferral(before, ops[|ops| - 1], call, generation)
      case Some(action) => Deferrals(before, call, generation) + [action]
      case None => Deferrals(before, call, generation)
  }

  ghost predicate Queued(entries: seq<Entry>, actions: seq<Deferred>) {
    |entries| == |actions| && forall i :: 0 <= i < |entries| ==> entries[i].action == actions[i]
  }

  lemma LiveGrows(ops: seq<Op>, op: Op, call: Call)
    ensures Live(ops + [op], call).phase == if IsPause(op) then Paused else Live(ops, call).phase
  {
    var more := ops + [op];
    if i :| 0 <= i < |ops| && IsPause(ops[i]) {
      assert IsPause(more[i]);
    }
    if i :| 0 <= i < |more| && IsPause(more[i]) {
      assert i < |ops| ==> IsPause(ops[i]);
    }
    assert more[|ops|] == op;
  }

  lemma KeyboardGoes(ops: seq<Op>, op: Op, call: Call)
    ensures KeyboardUp(ops + [op], call) <==> KeyboardUp(ops, call) && !op.LoseKeyboard?
  {
    assert LoseKeyboard in ops + [op] <==> LoseKeyboard in ops || op == LoseKeyboard;
  }

  // ----- the replay keeps to the account

  ghost predicate Follows(s: State, t: State, tale: Tale, keyboard: bool) {
    && t.keyboard == keyboard && t.phase == tale.phase && t.session == tale.owner && t.lastPoll == s.lastPoll
    && s.generation <= t.generation && (t.generation == s.generation <==> !tale.ended)
  }

  lemma ReplayOne(s: State, entries: seq<Entry>, now: Millis, clock: Millis)
    requires entries != []
    ensures var n := |entries| - 1;
            Replay(s, entries, now, clock) ==
            ApplyDeferred(Replay(s, entries[..n], now, clock), entries[n].action, now, clock)
  {
    var n := |entries| - 1;
    assert entries == entries[..n] + [entries[n]] && [entries[n]][1..] == [];
    ReplayConcat(s, entries[..n], [entries[n]], now, clock);
  }

  function AppliedTo(t: State, action: Option<Deferred>, now: Millis, clock: Millis): State {
    if action.Some? then ApplyDeferred(t, action.value, now, clock) else t
  }

  lemma CloseFollows(s: State, t: State, tale: Tale, before: seq<Op>, op: Op, call: Call, at: Moment, clock: Millis)
    requires Follows(s, t, tale, at.keyboard) && call.poll == s.lastPoll && op.CloseOf?
    ensures Follows(s, AppliedTo(t, Deferral(before, op, call, s.generation), at.now, clock), Tell(tale, op, call, at),
                    at.keyboard)
  {
  }

  lemma EntryFollows(s: State, t: State, tale: Tale, before: seq<Op>, op: Op, call: Call, at: Moment, clock: Millis)
    requires Follows(s, t, tale, at.keyboard) && call.poll == s.lastPoll && op.Post?
    requires op.request.action == Control.Start || op.request.action == Control.Resume
    ensures Follows(s, AppliedTo(t, Deferral(before, op, call, s.generation), at.now, clock), Tell(tale, op, call, at),
                    at.keyboard)
  {
  }

  lemma OneFollows(s: State, t: State, tale: Tale, before: seq<Op>, op: Op, call: Call, at: Moment, clock: Millis)
    requires Follows(s, t, tale, at.keyboard) && call.poll == s.lastPoll
    requires op.LoseKeyboard? ==> !at.keyboard && tale.phase != Running
    ensures Follows(s, AppliedTo(t, Deferral(before, op, call, s.generation), at.now, clock), Tell(tale, op, call, at),
                    at.keyboard)
  {
    if op.CloseOf? {
      CloseFollows(s, t, tale, before, op, call, at, clock);
    } else if op.Post? && (op.request.action == Control.Start || op.request.action == Control.Resume) {
      EntryFollows(s, t, tale, before, op, call, at, clock);
    }
  }

  /** Without the keyboard nothing enters running. */
  lemma {:induction false} NothingEnters(tale: Tale, ops: seq<Op>, call: Call, at: Moment)
    requires tale.phase != Running && !at.keyboard
    ensures TellAll(tale, ops, call, at).phase != Running
    decreases |ops|
  {
    if ops != [] {
      NothingEnters(tale, ops[..|ops| - 1], call, at);
    }
  }

  lemma {:induction false} ReplayFollows(s: State, t: State, tale: Tale, ops: seq<Op>, entries: seq<Entry>,
                                         call: Call, at: Moment, clock: Millis)
    requires Follows(s, t, tale, at.keyboard) && call.poll == s.lastPoll
    requires LoseKeyboard in ops ==> !at.keyboard && tale.phase != Running
    requires Queued(entries, Deferrals(ops, call, s.generation))
    ensures Follows(s, Replay(t, entries, at.now, clock), TellAll(tale, ops, call, at), at.keyboard)
    decreases |ops|
  {
    if ops != [] {
      var before, last := ops[..|ops| - 1], ops[|ops| - 1];
      var n := if Deferral(before, last, call, s.generation).Some? then |entries| - 1 else |entries|;
      ReplayFollows(s, t, tale, before, entries[..n], call, at, clock);
      if last.LoseKeyboard? {
        assert LoseKeyboard in ops;
        NothingEnters(tale, before, call, at);
      }
      var u, told := Replay(t, entries[..n], at.now, clock), TellAll(tale, before, call, at);
      OneFollows(s, u, told, before, last, call, at, clock);
      if n < |entries| {
        ReplayOne(t, entries, at.now, clock);
      } else {
        assert entries[..n] == entries;
      }
    }
  }

  // ----- the posts keep to the account

  /** A call into which these controls have been accepted. */
  ghost predicate Stands(s: State, t: State, ops: seq<Op>, call: Call) {
    && t.injecting && t.session == Some(call.driver) && t.generation == s.generation
    && t.lastPoll == s.lastPoll == call.poll && t.phase == Live(ops, call).phase
    && t.keyboard == KeyboardUp(ops, call)
    && Queued(t.queue, Deferrals(ops, call, s.generation))
  }

  lemma LossIsLive(ops: seq<Op>, call: Call)
    ensures LoseKeyboard in ops ==> Live(ops, call).phase == Paused && !KeyboardUp(ops, call)
  {
    if LoseKeyboard in ops {
      var i :| 0 <= i < |ops| && ops[i] == LoseKeyboard;
      assert IsPause(ops[i]);
    }
  }

  lemma UnwindStands(s: State, t: State, ops: seq<Op>, call: Call, now: Millis, clock: Millis)
    requires Stands(s, t, ops, call)
    ensures var u := FinishInject(t, now, clock);
            u.phase == Told(ops, call, now).phase && u.session == Told(ops, call, now).owner
    ensures PhaseAfterDeferred(t, now) == Told(ops, call, now).phase
  {
    LossIsLive(ops, call);
    ReplayFollows(s, Unwound(t), Live(ops, call), ops, t.queue, call, Moment(now, KeyboardUp(ops, call)), clock);
    AdmissionSimulatesUnwind(t, now, clock);
  }

  /** The gate answers one more control exactly as the account does. */
  lemma AnswerStands(s: State, t: State, ops: seq<Op>, r: Request, call: Call)
    requires Stands(s, t, ops, call)
    ensures ControlAutomation(t, r).1 == Answer(ops, r, call)
  {
    UnwindStands(s, t, ops, call, r.clock, r.clock);
  }

  /** During a call an accepted control joins the queue, and any other changes nothing. */
  lemma AcceptedIsQueued(t: State, r: Request, before: seq<Op>, call: Call)
    requires t.injecting
    ensures var (u, reply) := ControlAutomation(t, r);
            && (reply == Accepted ==>
                  Deferral(before, Post(r), call, 0).Some? &&
                  u.queue == t.queue + [Entry(t.controlSeq + 1, Deferral(before, Post(r), call, 0).value)])
            && (reply != Accepted ==> u == t)
            && u.injecting && u.session == t.session && u.generation == t.generation
            && u.keyboard == t.keyboard && u.lastPoll == t.lastPoll
            && u.phase == if r.action == Control.Pause then Paused else t.phase
  {
  }

  lemma OneRequest(s: State, t: State, ops: seq<Op>, op: Op, call: Call)
    requires Stands(s, t, ops, call) && op.Post?
    ensures var u := PostOp(t, op);
            if Accepts(ops, op, call)
            then u.queue == t.queue + match Deferral(ops, op, call, s.generation)
                                      case Some(action) => [Entry(t.controlSeq + 1, action)]
                                      case None => []
            else u == t
    ensures var u := PostOp(t, op);
            && u.injecting && u.session == t.session && u.generation == t.generation
            && u.keyboard == (t.keyboard && !op.LoseKeyboard?)
            && u.lastPoll == t.lastPoll && u.phase == if IsPause(op) then Paused else t.phase
  {
    AnswerStands(s, t, ops, op.request, call);
    AcceptedIsQueued(t, op.request, ops, call);
  }

  lemma OnePost(s: State, t: State, ops: seq<Op>, op: Op, call: Call)
    requires Stands(s, t, ops, call)
    ensures var u := PostOp(t, op);
            if Accepts(ops, op, call)
            then u.queue == t.queue + match Deferral(ops, op, call, s.generation)
                                      case Some(action) => [Entry(t.controlSeq + 1, action)]
                                      case None => []
            else u == t
    ensures var u := PostOp(t, op);
            && u.injecting && u.session == t.session && u.generation == t.generation
            && u.keyboard == (t.keyboard && !op.LoseKeyboard?)
            && u.lastPoll == t.lastPoll && u.phase == if IsPause(op) then Paused else t.phase
  {
    if op.Post? {
      OneRequest(s, t, ops, op, call);
    }
  }

  lemma OneStands(s: State, t: State, ops: seq<Op>, op: Op, call: Call)
    requires Stands(s, t, ops, call)
    ensures Stands(s, PostOp(t, op), if Accepts(ops, op, call) then ops + [op] else ops, call)
  {
    OnePost(s, t, ops, op, call);
    LiveGrows(ops, op, call);
    KeyboardGoes(ops, op, call);
    assert (ops + [op])[..|ops|] == ops;
  }

  lemma {:induction false} PostsStand(s: State, ops: seq<Op>, call: Call)
    requires Armed(s, call)
    ensures Stands(s, PostOps(s, ops), AcceptedOps(ops, call), call)
    decreases |ops|
  {
    if ops != [] {
      var before := ops[..|ops| - 1];
      PostsStand(s, before, call);
      OneStands(s, PostOps(s, before), AcceptedOps(before, call), ops[|ops| - 1], call);
    }
  }

  /**
   For every sequence, of any length, of controls by anyone, closes of any sessions and
   losses of the keyboard during one call, at any clocks: the answer to each next one, and the phase and
   the owner after the unwind.
   */
  lemma UnwindTells(s: State, ops: seq<Op>, call: Call, next: Request, now: Millis, clock: Millis)
    requires Armed(s, call)
    ensures var accepted := AcceptedOps(ops, call);
            var t := FinishInject(PostOps(s, ops), now, clock);
            && ControlAutomation(PostOps(s, ops), next).1 == Answer(accepted, next, call)
            && t.phase == Told(accepted, call, now).phase && t.session == Told(accepted, call, now).owner
  {
    PostsStand(s, ops, call);
    UnwindStands(s, PostOps(s, ops), AcceptedOps(ops, call), call, now, clock);
    AnswerStands(s, PostOps(s, ops), AcceptedOps(ops, call), next, call);
  }

  // ----- what the account says

  /** The last start that may enter wins for its session, over whatever came before and closes of others after. */
  lemma {:induction false} LastStartOwns(tale: Tale, before: seq<Op>, start: Request, closes: seq<Op>, call: Call,
                                         at: Moment)
    requires start.action == Control.Start && start.session.Some?
    requires at.keyboard && (start.companion || Within(call.poll, at.now, start.timeout))
    requires forall i :: 0 <= i < |closes| ==> closes[i].CloseOf? && Some(closes[i].session) != start.session
    ensures var told := TellAll(tale, before + [Post(start)] + closes, call, at);
            told.phase == Running && told.owner == start.session
    decreases |closes|
  {
    var ops := before + [Post(start)] + closes;
    if closes == [] {
      assert ops[..|ops| - 1] == before;
    } else {
      assert ops[..|ops| - 1] == before + [Post(start)] + closes[..|closes| - 1];
      LastStartOwns(tale, before, start, closes[..|closes| - 1], call, at);
    }
  }

  /** A close ends the driver's stretch for good, unless a start or resume names the driver again. */
  lemma {:induction false} ClosedDriverIsGone(tale: Tale, ops: seq<Op>, call: Call, at: Moment)
    requires tale.owner != Some(call.driver)
    requires forall i :: 0 <= i < |ops| && ops[i].Post? ==> ops[i].request.session != Some(call.driver)
    ensures TellAll(tale, ops, call, at).owner != Some(call.driver)
    decreases |ops|
  {
    if ops != [] {
      ClosedDriverIsGone(tale, ops[..|ops| - 1], call, at);
    }
  }

  /** Without a fresh poll at the unwind, TCP controls alone leave a paused call paused, ended or off. */
  lemma {:induction false} TcpAloneNeverRuns(tale: Tale, ops: seq<Op>, call: Call, at: Moment)
    requires tale.phase != Running
    requires forall i :: 0 <= i < |ops| && ops[i].Post? ==>
                           !ops[i].request.companion && !Within(call.poll, at.now, ops[i].request.timeout)
    ensures TellAll(tale, ops, call, at).phase != Running
    decreases |ops|
  {
    if ops != [] {
      TcpAloneNeverRuns(tale, ops[..|ops| - 1], call, at);
    }
  }
}
