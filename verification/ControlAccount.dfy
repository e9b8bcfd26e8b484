/** One control outside a call: every answer, and what an accepted one leaves, for every caller and state. */
module ControlAccount {
  import opened Basics
  import opened GateModel
  import opened GateInvariant
  import opened DeferredQueue
  import opened TrustClock

  predicate EntersRunning(action: Control) {
    action == Control.Start || action == Control.Resume
  }

  /** The desktop cannot be driven: no start and no resume is even looked at. */
  predicate CannotDrive(r: Request) {
    EntersRunning(r.action) && (r.wayland || r.keyboardBlocked)
  }

  /** A pause is the companion's to end. */
  predicate NotTheirs(r: Request, phase: Phase) {
    !r.companion && phase == Paused && r.action != Control.Pause
  }

  /** The companion polled less than the window ago. */
  predicate PolledWithin(s: State, r: Request) {
    s.lastPoll.Some? && Since(r.now, s.lastPoll.value) < r.timeout
  }

  /**
   Every answer, exactly: 501 for an entry without a desktop or keyboard, whoever asks; 403
   for anyone but the companion ending a pause; a start needs a session; and one from off
   by TCP a companion poll inside the window. Nothing but an accepted control changes the gate.
   */
  lemma AnswersExactly(s: State, r: Request)
    requires Inv(s) && !s.injecting
    ensures var (t, reply) := ControlAutomation(s, r);
            && (reply == NotImplemented <==> CannotDrive(r))
            && (reply == Forbidden <==> !CannotDrive(r) && NotTheirs(r, s.phase))
            && (reply == Refused(NeedsSession) <==>
                !CannotDrive(r) && !NotTheirs(r, s.phase) && r.action == Control.Start && r.session == None)
            && (reply == Refused(StalePoll) <==>
                !CannotDrive(r) && r.action == Control.Start && r.session.Some? &&
                s.phase == Off && !r.companion && !PolledWithin(s, r))
            && (reply != Accepted ==> t == s)
  {
  }

  /** What an accepted control leaves: phase, owner, whether the drive is dropped, and what it never touches. */
  lemma AcceptedLeavesExactly(s: State, r: Request)
    requires Inv(s) && !s.injecting && ControlAutomation(s, r).1 == Accepted
    ensures var t := ControlAutomation(s, r).0;
            && (r.action == Control.Pause ==> t.phase == Paused && t.session == s.session && t.drive == s.drive)
            && (r.action == Control.Stop ==> t.phase == Off && t.session == None)
            && (r.action == Control.Start ==> t.phase == Running && t.session == r.session && t.drive == None)
            && (r.action == Control.Resume && s.phase != Paused ==>
                  t.phase == s.phase && t.session == s.session && t.drive == s.drive)
            && (r.action == Control.Resume && s.phase == Paused && r.session.Some? ==>
                  t.phase == Running && t.session == r.session && t.drive == None)
            && (r.action == Control.Resume && s.phase == Paused && r.session == None ==>
                  t.phase == Off && t.session == None)
            && t.controlSeq == s.controlSeq + 1 && !t.injecting
            && t.lastPoll == s.lastPoll && t.keyboard == s.keyboard && t.notice == s.notice
            && t.injectSeq == s.injectSeq && t.settledSeq == s.settledSeq
            && (t.phase != Off ==> t.pointer == s.pointer && t.lastAtMs == s.lastAtMs)
  {
  }

  /** The gate never enters running by TCP from off without a fresh poll, nor from a pause at all. */
  lemma TcpEntersExactly(s: State, r: Request)
    requires Inv(s) && !s.injecting && !r.companion && s.phase != Running
    ensures ControlAutomation(s, r).0.phase == Running <==>
            s.phase == Off && r.action == Control.Start && r.session.Some? && !r.wayland && !r.keyboardBlocked &&
            PolledWithin(s, r)
  {
    AnswersExactly(s, r);
  }

  /** The gate's own refusals, behind the endpoint: a TCP resume of a pause needs a fresh poll as well. */
  lemma AppliesExactly(s: State, r: Request)
    requires Inv(s) && !s.injecting
    ensures var (t, reject) := Apply(s, r.session, r.action, r.companion, r.now, r.timeout, r.clock);
            && (reject == Some(NeedsSession) <==> r.action == Control.Start && r.session == None)
            && (reject == Some(StalePoll) <==>
                !r.companion && !PolledWithin(s, r) && r.session.Some? &&
                (if r.action == Control.Start then s.phase != Running
                 else r.action == Control.Resume && s.phase == Paused))
            && (reject.Some? ==> t == s)
  {
  }

  // ----- any number of controls

  /** What controls outside a call leave. */
  datatype Account = Account(phase: Phase, owner: Option<Session>)

  function AccountOf(s: State): Account {
    Account(s.phase, s.session)
  }

  /** The last control that was accepted and did something, told from the posts alone. */
  function Settle(account: Account, r: Request, polled: bool): Account {
    if CannotDrive(r) || NotTheirs(r, account.phase) then account
    else if r.action == Control.Pause then Account(Paused, account.owner)
    else if r.action == Control.Stop then Account(Off, None)
    else if r.action == Control.Resume then
      if account.phase != Paused then account
      else if r.session.Some? then Account(Running, r.session)
      else Account(Off, None)
    else if r.session.Some? && (account.phase == Running || r.companion || polled) then Account(Running, r.session)
    else account
  }

  function SettleAll(account: Account, requests: seq<Request>, s: State): Account {
    if requests == [] then account
    else
      var last := requests[|requests| - 1];
      Settle(SettleAll(account, requests[..|requests| - 1], s), last, PolledWithin(s, last))
  }

  function AskAll(s: State, requests: seq<Request>): State {
    if requests == [] then s
    else ControlAutomation(AskAll(s, requests[..|requests| - 1]), requests[|requests| - 1]).0
  }

  /** Phase and owner after any number of controls by anyone, outside a call. */
  lemma {:induction false} ControlsSettle(s: State, requests: seq<Request>)
    requires Inv(s) && !s.injecting
    ensures var t := AskAll(s, requests);
            Inv(t) && !t.injecting && t.lastPoll == s.lastPoll && AccountOf(t) == SettleAll(AccountOf(s), requests, s)
    decreases |requests|
  {
    if requests != [] {
      var t, last := AskAll(s, requests[..|requests| - 1]), requests[|requests| - 1];
      ControlsSettle(s, requests[..|requests| - 1]);
      ControlKeepsInv(t, last);
      AnswersExactly(t, last);
      if ControlAutomation(t, last).1 == Accepted {
        AcceptedLeavesExactly(t, last);
      }
    }
  }

  /**
   Over every run of a new gate on a nondecreasing clock that ends outside a call: a TCP
   start that names a session, on a desktop that can be driven, is accepted exactly if the
   gate is running, or off with a stored companion poll less than the window old.
   */
  lemma TcpStartIsAcceptedExactly(steps: seq<Step>, r: Request)
    requires OrderedRun(steps, 0) && !Run(INITIAL, steps).injecting
    requires r.action == Control.Start && !r.companion && r.session.Some? && !CannotDrive(r)
    ensures var s := Run(INITIAL, steps);
            ControlAutomation(s, r).1 == Accepted <==>
            s.phase == Running ||
            (s.phase == Off &&
             exists i :: 0 <= i < |steps| && StoredPoll(INITIAL, steps, i) && Since(r.now, steps[i].now) < r.timeout)
  {
    var s := Run(INITIAL, steps);
    RunKeepsInv(INITIAL, steps);
    FreshExactlyAfterAStoredPoll(INITIAL, steps, 0, r.now, r.timeout);
    AnswersExactly(s, r);
  }

  // ----- shutdown and notices

  /**
   A shutdown shows at first in the epoch alone, which cancels whatever captured an earlier
   one; the unwind of a call under way then leaves the gate off and unowned, whatever was
   queued before.
   */
  lemma ShutdownEndsTheCall(s: State, now: Millis, clock: Millis)
    requires Inv(s)
    ensures var t := Next(s, CancelForShutdown);
            && t.phase == s.phase && t.session == s.session && t.drive == s.drive && t.epoch == s.epoch + 1
            && (s.injecting ==> FinishInject(t, now, clock).phase == Off && FinishInject(t, now, clock).session == None)
  {
    var t := Next(s, CancelForShutdown);
    if s.injecting {
      var stop, last := Deferred.Stop, Entry(s.controlSeq + 1, Deferred.Stop);
      assert t.queue == s.queue + [last] && [last][1..] == [];
      ReplayConcat(Unwound(t), s.queue, [last], now, clock);
      var before := Replay(Unwound(t), s.queue, now, clock);
      assert Replay(before, [last], now, clock) == Replay(ApplyDeferred(before, stop, now, clock), [], now, clock);
    }
  }

  function LastNotice(notice: Notice, steps: seq<Step>): Notice
    decreases |steps|
  {
    if steps == [] then notice
    else LastNotice(if steps[0].SetNotice? then steps[0].notice else notice, steps[1..])
  }

  /** Over every run, resets included, the notice is the last one that was set. */
  lemma {:induction false} NoticeStands(s: State, steps: seq<Step>)
    requires Inv(s)
    ensures Run(s, steps).notice == LastNotice(s.notice, steps)
    decreases |steps|
  {
    if steps != [] {
      NextKeepsInv(s, steps[0]);
      NoticeMoves(s, steps[0]);
      NoticeStands(Next(s, steps[0]), steps[1..]);
    }
  }

  lemma NoticeMoves(s: State, step: Step)
    requires Inv(s)
    ensures Next(s, step).notice == if step.SetNotice? then step.notice else s.notice
  {
    match step
    case End(now, clock) => FinishKeepsInv(s, now, clock);
    case _ =>
  }
}
