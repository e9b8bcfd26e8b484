/**
 What the gate publishes of a finished drive: the point where the plan of the request
 leaves the pointer, for the next typed request and for the companion's fallback.
 */
module RecordedDrive {
  import opened Basics
  import opened InputTypes
  import opened GateModel
  import opened GateInvariant
  import opened DeferredQueue
  import opened TwoParty
  import opened DragPath
  import opened PauseMarks
  import FallbackModel

  // ----- where a plan leaves the pointer

  function Ticks(delta: int, negative: ScrollDirection, positive: ScrollDirection): seq<PointerStep> {
    seq(Abs(delta), i => Wheel(if delta < 0 then negative else positive))
  }

  /** What a request makes the pointer do; a drag too long for it makes no plan. */
  function PlanOf(op: MouseOp): seq<PointerStep> {
    match op
    case Move(x, y, _) => [MoveTo(x, y)]
    case Click(x, y, button) => [MoveTo(x, y), Press(button, true), Press(button, false)]
    case Scroll(x, y, dx, dy) =>
      [MoveTo(x, y)] + Ticks(dx, ScrollLeft, ScrollRight) + Ticks(dy, ScrollUp, ScrollDown)
    case Drag(x, y, toX, toY, button) =>
      if PointCount(Point(x, y), Point(toX, toY)).Some? then Plan(Point(x, y), Point(toX, toY), button) else []
  }

  /** The pointer after some steps. */
  function PointerAfter(at: Option<Point>, steps: seq<PointerStep>): Option<Point> {
    if steps == [] then at
    else
      match steps[|steps| - 1]
      case MoveTo(x, y) => Some(Point(x, y))
      case _ => PointerAfter(at, steps[..|steps| - 1])
  }

  lemma {:induction false} StillAfter(at: Option<Point>, moves: seq<PointerStep>, still: seq<PointerStep>)
    requires forall i :: 0 <= i < |still| ==> !still[i].MoveTo?
    ensures PointerAfter(at, moves + still) == PointerAfter(at, moves)
    decreases |still|
  {
    if still == [] {
      assert moves + still == moves;
    } else {
      assert (moves + still)[..|moves + still| - 1] == moves + still[..|still| - 1];
      StillAfter(at, moves, still[..|still| - 1]);
    }
  }

  /** The point a request names as its last. */
  function Landing(op: MouseOp): Point {
    match op
    case Move(x, y, _) => Point(x, y)
    case Click(x, y, _) => Point(x, y)
    case Scroll(x, y, _, _) => Point(x, y)
    case Drag(_, _, toX, toY, _) => Point(toX, toY)
  }

  predicate Plannable(op: MouseOp) {
    op.Drag? ==>
      PointCount(Point(op.x, op.y), Point(op.toX, op.toY)).Some? &&
      IsI32Point(Point(op.x, op.y)) && IsI32Point(Point(op.toX, op.toY))
  }

  /** Every plan starts with a move, a drag's to its origin, and leaves the pointer at the landing. */
  lemma PlanLands(op: MouseOp, at: Option<Point>)
    requires Plannable(op)
    ensures PointerAfter(at, PlanOf(op)) == Some(Landing(op))
    ensures PlanOf(op) != [] && PlanOf(op)[0].MoveTo?
    ensures op.Drag? ==> PlanOf(op)[0] == MoveTo(op.x, op.y)
  {
    match op
    case Move(_, _, _) =>
    case Click(x, y, button) =>
      StillAfter(at, [MoveTo(x, y)], [Press(button, true), Press(button, false)]);
      assert PlanOf(op) == [MoveTo(x, y)] + [Press(button, true), Press(button, false)];
    case Scroll(x, y, dx, dy) =>
      var ticks := Ticks(dx, ScrollLeft, ScrollRight) + Ticks(dy, ScrollUp, ScrollDown);
      StillAfter(at, [MoveTo(x, y)], ticks);
      assert PlanOf(op) == [MoveTo(x, y)] + ticks;
    case Drag(x, y, toX, toY, button) =>
      var plan := PlanOf(op);
      PlanShape(Point(x, y), Point(toX, toY), button);
      var n := |plan| - 1;
      assert plan == plan[..n] + [plan[n]];
      StillAfter(at, plan[..n], [plan[n]]);
  }

  /** The request as recorded: at the point where the desktop found the pointer afterwards. */
  function WithReached(op: MouseOp, at: Option<Point>): MouseOp {
    match at
    case None => op
    case Some(p) =>
      match op {
        case Move(_, _, clickable) => Move(p.x, p.y, clickable)
        case Scroll(_, _, dx, dy) => Scroll(p.x, p.y, dx, dy)
        case Click(_, _, button) => Click(p.x, p.y, button)
        case Drag(x, y, _, _, button) => Drag(x, y, p.x, p.y, button)
      }
  }

  // ----- one record

  function KindOf(op: MouseOp): DriveKind {
    match op
    case Click(_, _, _) => ClickDrive
    case Drag(_, _, _, _, _) => DragDrive
    case _ => MoveDrive
  }

  /** The saturating time since the last sample. */
  predicate ElapsedSince(last: Option<nat>, nowMs: nat, elapsed: nat) {
    if last == None || last.value >= nowMs then elapsed == 0
    else if nowMs - last.value <= U32_MAX then last.value + elapsed == nowMs
    else elapsed == U32_MAX
  }

  /**
   An accepted record publishes the point where the desktop found the pointer, and that is
   where the plan of the request leaves it if the desktop did as asked or does not say. A
   drag comes from the first point of its plan, anything else from where the pointer was.
   */
  lemma RecordNamesThePlansEnd(s: State, session: Session, op: MouseOp, from: Option<Point>, reached: Option<Point>,
                               generation: nat, nowMs: nat, clock: Millis)
    requires Accepts(s, generation) && Plannable(op)
    ensures var end := if reached.Some? then reached else PointerAfter(from, PlanOf(op));
            var t := RecordMouse(s, session, WithReached(op, reached), from, generation, nowMs, clock);
            && end.Some? && t.drive.Some? && t.pointer == end
            && var drive := t.drive.value;
               && Some(Point(drive.x, drive.y)) == end && drive.pointerKnown
               && drive.kind == KindOf(op) && (drive.clickable <==> op.Move? && op.clickable)
               && (op.Drag? ==> MoveTo(drive.fromX, drive.fromY) == PlanOf(op)[0])
               && (!op.Drag? ==>
                     Some(Point(drive.fromX, drive.fromY)) ==
                     if from.Some? then from else if s.pointer.Some? then s.pointer else end)
               && drive.atMs == nowMs && ElapsedSince(s.lastAtMs, nowMs, drive.elapsedMs)
               && drive.resumeSeq == s.resumeSeq && drive.injectSeq == s.injectSeq && t.lastAtMs == Some(nowMs)
    ensures reached == None || reached == PointerAfter(from, PlanOf(op)) ==> WithReached(op, reached) == op
  {
    PlanLands(op, from);
  }

  // ----- the last recorded point over a run

  /** Whether a queued control wipes the gate when its turn comes. */
  predicate Wipes(s: State, action: Deferred) {
    match action
    case Stop => true
    case Close(session, generation) => s.session == Some(session) && s.generation == generation && s.phase != Paused
    case Resume(owner, _, _) => owner == None && s.phase == Paused && s.keyboard
    case _ => false
  }

  predicate WipedBy(s: State, entries: seq<Entry>, now: Millis, clock: Millis)
    decreases |entries|
  {
    entries != [] &&
    (Wipes(s, entries[0].action) || WipedBy(ApplyDeferred(s, entries[0].action, now, clock), entries[1..], now, clock))
  }

  /** A stop, a close of the owner, a resume without a session or a shutdown's reset, at once or in an unwind. */
  predicate StepWipes(s: State, step: Step) {
    match step
    case ResetForShutdown => true
    case Ask(r) =>
      !s.injecting && ControlAutomation(s, r).1 == Accepted &&
      (r.action == Control.Stop || (r.action == Control.Resume && s.phase == Paused && r.session == None))
    case NoteClosed(session) => !s.injecting && s.session == Some(session) && s.phase != Paused
    case FinishClosed(session) => !s.injecting && s.session == Some(session) && s.phase != Paused
    case End(now, clock) => WipedBy(Unwound(s), s.queue, now, clock)
    case _ => false
  }

  /** The point a step records, if it records one that is known. */
  function PointOf(s: State, step: Step): Option<Point> {
    match step
    case Mouse(_, op, _, generation, _, _) => if Accepts(s, generation) then Some(Landing(op)) else None
    case Type(_, at, generation, _, _) => if Accepts(s, generation) then at else None
    case _ => None
  }

  predicate Records(s: State, step: Step) {
    (step.Mouse? || step.Type?) && Accepts(s, step.generation)
  }

  /** The last known point recorded in the first `n` steps and not wiped since. */
  function LastPoint(s: State, steps: seq<Step>, n: nat): Option<Point>
    requires n <= |steps|
  {
    if n == 0 then s.pointer
    else
      var u := Run(s, steps[..n - 1]);
      if StepWipes(u, steps[n - 1]) then None
      else if PointOf(u, steps[n - 1]).Some? then PointOf(u, steps[n - 1])
      else LastPoint(s, steps, n - 1)
  }

  /** When something was last recorded in the first `n` steps, and not wiped since. */
  function LastTime(s: State, steps: seq<Step>, n: nat): Option<nat>
    requires n <= |steps|
  {
    if n == 0 then s.lastAtMs
    else
      var u, step := Run(s, steps[..n - 1]), steps[n - 1];
      if StepWipes(u, step) then None
      else if Records(u, step) then Some(step.nowMs)
      else LastTime(s, steps, n - 1)
  }

  lemma {:induction false} ReplayWipes(s: State, entries: seq<Entry>, now: Millis, clock: Millis)
    ensures var t := Replay(s, entries, now, clock);
            var wiped := WipedBy(s, entries, now, clock);
            && t.pointer == (if wiped then None else s.pointer)
            && t.lastAtMs == (if wiped then None else s.lastAtMs)
    decreases |entries|
  {
    if entries != [] {
      ReplayWipes(ApplyDeferred(s, entries[0].action, now, clock), entries[1..], now, clock);
    }
  }

  lemma AskWipes(s: State, r: Request)
    ensures var t := ControlAutomation(s, r).0;
            && t.pointer == (if StepWipes(s, Ask(r)) then None else s.pointer)
            && t.lastAtMs == (if StepWipes(s, Ask(r)) then None else s.lastAtMs)
  {
  }

  lemma StepPoints(s: State, step: Step)
    ensures Next(s, step).pointer ==
            if StepWipes(s, step) then None
            else if PointOf(s, step).Some? then PointOf(s, step)
            else s.pointer
    ensures Next(s, step).lastAtMs ==
            if StepWipes(s, step) then None
            else if Records(s, step) then Some(step.nowMs)
            else s.lastAtMs
  {
    match step
    case End(now, clock) => ReplayWipes(Unwound(s), s.queue, now, clock);
    case Ask(r) => AskWipes(s, r);
    case _ =>
  }

  lemma {:induction false} PointIsKept(s: State, steps: seq<Step>, n: nat)
    requires n <= |steps|
    ensures Run(s, steps[..n]).pointer == LastPoint(s, steps, n)
    ensures Run(s, steps[..n]).lastAtMs == LastTime(s, steps, n)
    decreases n
  {
    if n > 0 {
      PointIsKept(s, steps, n - 1);
      StepPoints(Run(s, steps[..n - 1]), steps[n - 1]);
      RunOneMore(s, steps, n - 1);
    } else {
      assert steps[..0] == [];
    }
  }

  /**
   Over every run: an accepted typed record lands where the desktop found the pointer, else
   on the last point recorded and not wiped since, and is marked unknown without one; it
   says how long ago the last record was.
   */
  lemma TypedLandsOnTheLastPoint(s: State, steps: seq<Step>, session: Session, at: Option<Point>, generation: nat,
                                 nowMs: nat, clock: Millis)
    requires Accepts(Run(s, steps), generation)
    ensures var u := Run(s, steps);
            var t := RecordType(u, session, at, generation, nowMs, clock);
            var known := if at.Some? then at else LastPoint(s, steps, |steps|);
            && t.drive.Some? && t.pointer == known
            && var drive := t.drive.value;
               && drive.kind == TypeDrive && !drive.clickable
               && (drive.pointerKnown <==> known.Some?)
               && (known.Some? ==> Some(Point(drive.x, drive.y)) == known)
               && drive.fromX == drive.x && drive.fromY == drive.y
               && drive.atMs == nowMs && ElapsedSince(LastTime(s, steps, |steps|), nowMs, drive.elapsedMs)
               && drive.resumeSeq == u.resumeSeq && drive.injectSeq == u.injectSeq
  {
    PointIsKept(s, steps, |steps|);
    assert steps[..|steps|] == steps;
  }

  // ----- the drive on show over a run

  /** A reset, a cleared session or an entry into running, at once or in an unwind. */
  predicate DropsDrive(s: State, step: Step) {
    ClearsOf(s, step) > 0 || Entries(s, step) > 0
  }

  /** The drive of the last of the first `n` steps that recorded one, if nothing has dropped it since. */
  function LastDrive(s: State, steps: seq<Step>, n: nat): Option<Drive>
    requires n <= |steps|
  {
    if n == 0 then s.drive
    else
      var u, step := Run(s, steps[..n - 1]), steps[n - 1];
      if DropsDrive(u, step) then None
      else if Records(u, step) then Next(u, step).drive
      else LastDrive(s, steps, n - 1)
  }

  lemma {:induction false} ReplayDrops(s: State, entries: seq<Entry>, now: Millis, clock: Millis)
    ensures Replay(s, entries, now, clock).drive ==
            if ClearsIn(s, entries, now, clock) > 0 || EntriesIn(s, entries, now, clock) > 0 then None else s.drive
    decreases |entries|
  {
    if entries != [] {
      ReplayDrops(ApplyDeferred(s, entries[0].action, now, clock), entries[1..], now, clock);
    }
  }

  lemma AskDrops(s: State, r: Request)
    ensures ControlAutomation(s, r).0.drive == if DropsDrive(s, Ask(r)) then None else s.drive
  {
  }

  lemma StepDrives(s: State, step: Step)
    ensures DropsDrive(s, step) ==> Next(s, step).drive == None
    ensures !DropsDrive(s, step) && !Records(s, step) ==> Next(s, step).drive == s.drive
    ensures DropsDrive(s, step) ==> !Records(s, step)
  {
    match step
    case End(now, clock) => ReplayDrops(Unwound(s), s.queue, now, clock);
    case Ask(r) => AskDrops(s, r);
    case _ =>
  }

  /**
   Over every run, arming, pausing, polling and a lost keyboard included: the drive on show
   is that of the last record, until a reset, a cleared session or an entry drops it.
   */
  lemma {:induction false} DriveIsKept(s: State, steps: seq<Step>, n: nat)
    requires n <= |steps|
    ensures Run(s, steps[..n]).drive == LastDrive(s, steps, n)
    decreases n
  {
    if n > 0 {
      DriveIsKept(s, steps, n - 1);
      StepDrives(Run(s, steps[..n - 1]), steps[n - 1]);
      RunOneMore(s, steps, n - 1);
    } else {
      assert steps[..0] == [];
    }
  }

  // ----- what the companion makes of it

  /** A drive as the companion's snapshot carries it. */
  function Shown(drive: Drive): FallbackModel.FallbackDrive {
    FallbackModel.FallbackDrive(drive.x, drive.y, drive.atMs, drive.pointerKnown, drive.resumeSeq, drive.injectSeq)
  }

  /**
   From the plan to the companion: a sample judged by the drive of a request is off it
   exactly if the drive has been shown for more than 150 ms and the pointer is more than
   12 pixels from where the plan left it. Closer than that, only a new press reports.
   */
  lemma OffTargetExactlyOffThePlansEnd(s: State, session: Session, op: MouseOp, from: Option<Point>, generation: nat,
                                       nowMs: nat, clock: Millis, sample: FallbackModel.Sample,
                                       track: FallbackModel.Track)
    requires Accepts(s, generation) && Plannable(op)
    requires var recorded := RecordMouse(s, session, op, from, generation, nowMs, clock);
             sample.drive == Some(Shown(recorded.drive.value))
    requires FallbackModel.AtDrive(sample, track)
    ensures var end := PointerAfter(from, PlanOf(op));
            && end.Some?
            && (FallbackModel.OffTarget(sample) <==>
                sample.sampleAgeMs > 150 && Abs(sample.x - end.value.x) + Abs(sample.y - end.value.y) > 12)
            && (Abs(sample.x - end.value.x) + Abs(sample.y - end.value.y) <= 12 ==>
                  (FallbackModel.Classify(sample, track).1 <==>
                   FallbackModel.NewPress(track.buttonMask, sample.mask)))
  {
    PlanLands(op, from);
    RecordNamesThePlansEnd(s, session, op, from, None, generation, nowMs, clock);
    FallbackModel.AtDriveStep(sample, track);
  }

  /**
   Which drives judge a sample: one recorded after `i` steps of the gate, behind a cutoff
   read after `j` steps, exactly if its point is known and the gate entered running between
   the two. So a drive from before a resume never judges the pointer after it.
   */
  lemma DriveJudgesExactlyAfterAnEntry(s: State, steps: seq<Step>, i: nat, j: nat, drive: Drive,
                                       sample: FallbackModel.Sample)
    requires Inv(s) && i <= |steps| && j <= |steps|
    requires drive.resumeSeq == Run(s, steps[..i]).resumeSeq
    requires sample.drive == Some(Shown(drive)) && sample.afterResume == Some(Run(s, steps[..j]).resumeSeq)
    ensures FallbackModel.Usable(sample) <==> drive.pointerKnown && EnteredBetween(s, steps, j, i)
  {
    NewerIsEntered(s, steps, j, i);
  }
}
