/**
 Which snapshots a pause gives way to. Told from the moves of the companion and the
 moments at which its snapshots were read, over whole runs and through visor restarts.
 */
module PauseMarks {
  import opened Basics
  import opened GateModel
  import opened GateInvariant
  import opened CompanionModel
  import opened TwoParty

  /** A move of the companion; a snapshot or nonce in it was read after `at` steps of the gate. */
  datatype Sight = Sight(move: Move, at: nat)

  function MovesOf(sights: seq<Sight>): seq<Move> {
    if sights == [] then [] else MovesOf(sights[..|sights| - 1]) + [sights[|sights| - 1].move]
  }

  function Watch(m: Machine, sights: seq<Sight>): Machine {
    DoAll(m, MovesOf(sights))
  }

  lemma WatchLast(m: Machine, sights: seq<Sight>)
    requires sights != []
    ensures Watch(m, sights) == Do(Watch(m, sights[..|sights| - 1]), sights[|sights| - 1].move)
  {
    var last := sights[|sights| - 1].move;
    var before := MovesOf(sights[..|sights| - 1]);
    DoAllConcat(m, before, [last]);
    assert [last][1..] == [];
    assert DoAll(DoAll(m, before), [last]) == DoAll(Do(DoAll(m, before), last), []);
  }

  /** What the sight shows is the gate of this run, at its moment. */
  ghost predicate FromGate(s: State, steps: seq<Step>, sight: Sight) {
    match sight.move
    case See(visor, _, resumeSeq) =>
      && sight.at <= |steps|
      && visor == Run(s, steps[..sight.at]).phase && resumeSeq == Run(s, steps[..sight.at]).resumeSeq
    case Instance(_, resumeSeq) => sight.at <= |steps| && resumeSeq == Run(s, steps[..sight.at]).resumeSeq
    case _ => true
  }

  // ----- the last reading

  function LastNonce(nonce: Option<nat>, sights: seq<Sight>): Option<nat> {
    if sights == [] then nonce
    else if sights[|sights| - 1].move.Instance? then Some(sights[|sights| - 1].move.id)
    else LastNonce(nonce, sights[..|sights| - 1])
  }

  /** Another visor process than the one before. */
  predicate Restarts(nonce: Option<nat>, move: Move) {
    move.Instance? && nonce.Some? && nonce.value != move.id
  }

  /** The last snapshot, or the last nonce that was not the one before it. */
  function LastReading(nonce: Option<nat>, sights: seq<Sight>): Option<Sight> {
    if sights == [] then None
    else
      var before, last := sights[..|sights| - 1], sights[|sights| - 1];
      if last.move.See? || Restarts(LastNonce(nonce, before), last.move) then Some(last)
      else LastReading(nonce, before)
  }

  lemma {:induction false} NonceIsKept(m: Machine, sights: seq<Sight>)
    ensures Watch(m, sights).instance == LastNonce(m.instance, sights)
    decreases |sights|
  {
    if sights != [] {
      WatchLast(m, sights);
      NonceIsKept(m, sights[..|sights| - 1]);
    }
  }

  /** A nonce is reported as a restart exactly if it is not the first, nor the one before it. */
  lemma RestartIsSeenExactly(m: Machine, sights: seq<Sight>, id: nat, resumeSeq: nat)
    ensures NoteInstance(Watch(m, sights), id, resumeSeq).1 <==>
            Restarts(LastNonce(m.instance, sights), Instance(id, resumeSeq))
  {
    NonceIsKept(m, sights);
  }

  lemma {:induction false} LastReadingIsKept(m: Machine, sights: seq<Sight>)
    requires LastReading(m.instance, sights).Some?
    ensures var move := LastReading(m.instance, sights).value.move;
            (move.See? || move.Instance?) && Watch(m, sights).lastResumeSeq == move.resumeSeq
    decreases |sights|
  {
    var before, last := sights[..|sights| - 1], sights[|sights| - 1];
    WatchLast(m, sights);
    NonceIsKept(m, before);
    if !last.move.See? && !Restarts(LastNonce(m.instance, before), last.move) {
      LastReadingIsKept(m, before);
    }
  }

  // ----- a pause, from the move that marks it

  /**
   `first` begins a pause, or begins it anew with another visor process, marked by what
   was read after `i` steps: the last reading before physical input, the paused snapshot,
   or the new nonce.
   */
  ghost predicate Marks(s: State, steps: seq<Step>, m: Machine, before: seq<Sight>, first: Sight, i: nat) {
    match first.move
    case Input(_) =>
      var reading := LastReading(m.instance, before);
      && Watch(m, before).phase == Running
      && reading.Some? && FromGate(s, steps, reading.value) && i == reading.value.at
    case See(visor, _, _) =>
      && visor == Paused && Watch(m, before).phase != Paused && Do(Watch(m, before), first.move).phase == Paused
      && FromGate(s, steps, first) && i == first.at
    case Instance(_, _) =>
      && Watch(m, before).phase == Paused && Restarts(LastNonce(m.instance, before), first.move)
      && FromGate(s, steps, first) && i == first.at
    case _ => false
  }

  /** The pause stands, or a resume from it that nothing has confirmed. */
  predicate Standing(m: Machine) {
    m.phase == Paused || m.holdingResume
  }

  /** Moves of one visor process through which the pause stands; input during its resume would be a pause of its own. */
  ghost predicate StandsThrough(s: State, steps: seq<Step>, m: Machine, sights: seq<Sight>) {
    && (forall k :: 0 <= k <= |sights| ==> Standing(Watch(m, sights[..k])))
    && (forall k :: 0 <= k < |sights| ==>
                      && FromGate(s, steps, sights[k]) && !Restarts(LastNonce(m.instance, sights[..k]), sights[k].move)
                      && (sights[k].move.Input? ==> Watch(m, sights[..k]).phase == Paused))
  }

  /** The moments of the paused snapshots among the sights. */
  function PausedAt(sights: seq<Sight>): set<nat> {
    if sights == [] then {}
    else
      var before, last := PausedAt(sights[..|sights| - 1]), sights[|sights| - 1];
      if last.move.See? && last.move.visor == Paused then before + {last.at} else before
  }

  /** The mark is the newest of the sequences read at these moments. */
  ghost predicate MarkedBy(s: State, steps: seq<Step>, m: Machine, moments: set<nat>) {
    && (exists r :: r in moments && r <= |steps| && m.pauseMark == Run(s, steps[..r]).resumeSeq)
    && (forall r :: r in moments ==> r <= |steps| && Run(s, steps[..r]).resumeSeq <= m.pauseMark)
  }

  lemma FirstMark(s: State, steps: seq<Step>, m: Machine, before: seq<Sight>, first: Sight, i: nat)
    requires MachineInv(m) && Marks(s, steps, m, before, first, i)
    ensures var u := Do(Watch(m, before), first.move);
            MachineInv(u) && Standing(u) && MarkedBy(s, steps, u, {i})
  {
    AllKeepInv(m, MovesOf(before));
    NonceIsKept(m, before);
    if first.move.Input? {
      LastReadingIsKept(m, before);
    }
    assert i in {i};
  }

  /** One move of a standing pause moves its mark only by a newer paused snapshot. */
  lemma MarkMoves(m: Machine, move: Move)
    requires MachineInv(m) && Standing(m) && Standing(Do(m, move)) && !Restarts(m.instance, move)
    requires move.Input? ==> m.phase == Paused
    ensures Do(m, move).pauseMark ==
            if move.See? && move.visor == Paused then Max(m.pauseMark, move.resumeSeq) else m.pauseMark
  {
  }

  lemma OneMoreMark(s: State, steps: seq<Step>, m: Machine, sight: Sight, moments: set<nat>)
    requires MachineInv(m) && Standing(m) && Standing(Do(m, sight.move)) && !Restarts(m.instance, sight.move)
    requires sight.move.Input? ==> m.phase == Paused
    requires FromGate(s, steps, sight) && MarkedBy(s, steps, m, moments)
    ensures MarkedBy(s, steps, Do(m, sight.move),
                     if sight.move.See? && sight.move.visor == Paused then moments + {sight.at} else moments)
  {
    MarkMoves(m, sight.move);
    var r :| r in moments && r <= |steps| && m.pauseMark == Run(s, steps[..r]).resumeSeq;
    if sight.move.See? && sight.move.visor == Paused {
      assert r in moments + {sight.at} && sight.at in moments + {sight.at};
    }
  }

  /** What standing through all the sights says of the last one. */
  lemma LastStands(s: State, steps: seq<Step>, m: Machine, sights: seq<Sight>)
    requires StandsThrough(s, steps, m, sights) && sights != []
    ensures var before, last := sights[..|sights| - 1], sights[|sights| - 1];
            && Standing(Watch(m, before)) && Standing(Do(Watch(m, before), last.move))
            && FromGate(s, steps, last) && !Restarts(Watch(m, before).instance, last.move)
            && (last.move.Input? ==> Watch(m, before).phase == Paused)
  {
    var n := |sights| - 1;
    assert sights[..n + 1] == sights;
    assert Standing(Watch(m, sights[..n])) && Standing(Watch(m, sights[..n + 1]));
    WatchLast(m, sights);
    NonceIsKept(m, sights[..n]);
  }

  lemma {:induction false} MarksAdd(s: State, steps: seq<Step>, m: Machine, sights: seq<Sight>, i: nat)
    requires MachineInv(m) && MarkedBy(s, steps, m, {i}) && StandsThrough(s, steps, m, sights)
    ensures MarkedBy(s, steps, Watch(m, sights), {i} + PausedAt(sights))
    decreases |sights|
  {
    if sights == [] {
      assert {i} + PausedAt(sights) == {i};
    } else {
      var before, last := sights[..|sights| - 1], sights[|sights| - 1];
      StandsBefore(s, steps, m, sights);
      MarksAdd(s, steps, m, before, i);
      LastStands(s, steps, m, sights);
      WatchLast(m, sights);
      AllKeepInv(m, MovesOf(before));
      OneMoreMark(s, steps, Watch(m, before), last, {i} + PausedAt(before));
      assert {i} + (PausedAt(before) + {last.at}) == ({i} + PausedAt(before)) + {last.at};
    }
  }

  lemma StandsBefore(s: State, steps: seq<Step>, m: Machine, sights: seq<Sight>)
    requires StandsThrough(s, steps, m, sights) && sights != []
    ensures StandsThrough(s, steps, m, sights[..|sights| - 1])
  {
    var before := sights[..|sights| - 1];
    forall k | 0 <= k <= |before|
      ensures before[..k] == sights[..k]
    {
    }
    forall k | 0 <= k < |before|
      ensures before[k] == sights[k] && before[..k] == sights[..k]
    {
    }
  }

  // ----- what lifts it

  /** The gate entered running after moment `r` and before moment `j`. */
  ghost predicate EnteredBetween(s: State, steps: seq<Step>, r: nat, j: nat)
    requires r <= |steps| && j <= |steps|
  {
    r < j && EntriesOf(Run(s, steps[..r]), steps[r..j]) > 0
  }

  lemma NewerIsEntered(s: State, steps: seq<Step>, r: nat, j: nat)
    requires Inv(s) && r <= |steps| && j <= |steps|
    ensures Run(s, steps[..j]).resumeSeq > Run(s, steps[..r]).resumeSeq <==> EnteredBetween(s, steps, r, j)
  {
    var m := NewMachine(1).(phase := Paused, pauseMark := Run(s, steps[..r]).resumeSeq);
    LiftNeedsANewEntry(s, steps, r, j, m, 0);
  }

  /** The gate entered running after each of these moments and before moment `j`. */
  ghost predicate EnteredSince(s: State, steps: seq<Step>, moments: set<nat>, j: nat)
    requires j <= |steps|
  {
    forall r :: r in moments ==> r <= |steps| && EnteredBetween(s, steps, r, j)
  }

  lemma NewerThanMark(s: State, steps: seq<Step>, m: Machine, moments: set<nat>, j: nat)
    requires Inv(s) && j <= |steps| && MarkedBy(s, steps, m, moments)
    ensures Run(s, steps[..j]).resumeSeq > m.pauseMark <==> EnteredSince(s, steps, moments, j)
  {
    forall r | r in moments
      ensures Run(s, steps[..j]).resumeSeq > Run(s, steps[..r]).resumeSeq <==> EnteredBetween(s, steps, r, j)
    {
      NewerIsEntered(s, steps, r, j);
    }
  }

  /**
   Over whole runs of the companion, whatever came before the pause, other visor processes
   included: a running snapshot from any moment `j` lifts the pause exactly if the gate
   entered running before `j` and after all of these: the moment the pause is marked by,
   and every paused snapshot taken since. While a resume of the pause is in flight, a
   paused snapshot undoes it under exactly the same condition.
   */
  lemma PauseGivesWayExactly(s: State, steps: seq<Step>, m: Machine, before: seq<Sight>, first: Sight,
                             after: seq<Sight>, i: nat, j: nat, now: Millis)
    requires Inv(s) && MachineInv(m) && j <= |steps| && Marks(s, steps, m, before, first, i)
    requires StandsThrough(s, steps, Do(Watch(m, before), first.move), after)
    ensures var u := Watch(Do(Watch(m, before), first.move), after);
            var seen := Run(s, steps[..j]).resumeSeq;
            var newer := EnteredSince(s, steps, {i} + PausedAt(after), j);
            && (u.phase == Paused ==> (SeeVisor(u, Running, now, seen).phase == Running <==> newer))
            && (u.holdingResume ==> (SeeVisor(u, Paused, now, seen).phase == Paused <==> newer))
  {
    var marked := Do(Watch(m, before), first.move);
    FirstMark(s, steps, m, before, first, i);
    MarksAdd(s, steps, marked, after, i);
    AllKeepInv(marked, MovesOf(after));
    NewerThanMark(s, steps, Watch(marked, after), {i} + PausedAt(after), j);
  }

  /**
   In particular a person's pause: from a running machine whose last snapshot, or nonce of
   a new process, was read after `i` steps, a running snapshot from any moment lifts it
   exactly if the gate entered running between the two.
   */
  lemma PersonsPauseIsLiftedExactly(s: State, steps: seq<Step>, m: Machine, before: seq<Sight>, input: Millis,
                                    i: nat, j: nat, now: Millis)
    requires Inv(s) && MachineInv(m) && i <= |steps| && j <= |steps|
    requires Watch(m, before).phase == Running
    requires LastReading(m.instance, before).Some? && LastReading(m.instance, before).value.at == i
    requires FromGate(s, steps, LastReading(m.instance, before).value)
    ensures var (paused, effect) := UserInput(Watch(m, before), input);
            && paused.phase == Paused && effect == PauseVisor
            && (SeeVisor(paused, Running, now, Run(s, steps[..j]).resumeSeq).phase == Running <==>
                EnteredBetween(s, steps, i, j))
  {
    var paused := UserInput(Watch(m, before), input).0;
    FirstMark(s, steps, m, before, Sight(Input(input), 0), i);
    NewerThanMark(s, steps, paused, {i}, j);
    assert i in {i};
  }
}
