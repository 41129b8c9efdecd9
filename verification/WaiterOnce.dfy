/** The readiness latch (waiter_once.go) under every interleaving of its atomic steps: one waiter and any
    number of concurrent `unwait` callers. An error is a text, nil is None. */
module WaiterOnce {
  import opened Text
  import opened Codec

  type Error = Option<Bytes>

  /** Where the waiter is: before the ready check, before the compare-and-swap, blocked on the channel, before
      reading the error, or back with it. */
  datatype Waiter = AtCheck | AtLock | AtChannel | AtRead | Returned(err: Error)

  /** Where a caller of `unwait` is. */
  datatype Position = Checking | Storing | MarkingReady | Unlocking | Closing | Done

  datatype Caller = Caller(at: Position, err: Error)

  datatype State = State(
    locked: bool,
    ready: bool,
    err: Error,
    closes: nat,
    waiter: Waiter,
    callers: map<nat, Caller>,
    stored: set<Error>)

  const INITIAL := State(false, false, None, 0, AtCheck, map[], {})

  datatype Step = Call(id: nat, err: Error) | Unwait(id: nat) | Wait

  predicate Enabled(s: State, step: Step) {
    match step
    case Call(id, _) => id !in s.callers
    case Unwait(id) => id in s.callers && !s.callers[id].at.Done?
    case Wait => !s.waiter.Returned? && (s.waiter.AtChannel? ==> s.closes > 0)
  }

  function Move(s: State, id: nat, at: Position): State
    requires id in s.callers
  {
    s.(callers := s.callers[id := s.callers[id].(at := at)])
  }

  function UnwaitStep(s: State, id: nat): State
    requires id in s.callers
  {
    match s.callers[id].at
    case Checking => Move(s, id, if s.ready then Done else Storing)
    case Storing => Move(s, id, MarkingReady).(err := s.callers[id].err, stored := s.stored + {s.callers[id].err})
    case MarkingReady => Move(s, id, Unlocking).(ready := true)
    case Unlocking => if s.locked then Move(s, id, Closing).(locked := false) else Move(s, id, Done)
    case Closing => Move(s, id, Done).(closes := s.closes + 1)
    case Done => s
  }

  function WaitStep(s: State): State {
    match s.waiter
    case AtCheck => s.(waiter := if s.ready then AtRead else AtLock)
    case AtLock => if s.locked then s.(waiter := AtRead) else s.(locked := true, waiter := AtChannel)
    case AtChannel => s.(waiter := AtRead)
    case AtRead => s.(waiter := Returned(s.err))
    case Returned(_) => s
  }

  function Next(s: State, step: Step): State
    requires Enabled(s, step)
  {
    match step
    case Call(id, e) => s.(callers := s.callers[id := Caller(Checking, e)])
    case Unwait(id) => UnwaitStep(s, id)
    case Wait => WaitStep(s)
  }

  ghost predicate Run(states: seq<State>, steps: seq<Step>) {
    && |states| == |steps| + 1
    && forall i | 0 <= i < |steps| :: Enabled(states[i], steps[i]) && states[i + 1] == Next(states[i], steps[i])
  }

  // ---- safety ----

  predicate IsClosing(s: State, id: nat) {
    id in s.callers && s.callers[id].at.Closing?
  }

  /** The right to close the channel is held once at most: by the lock, by a caller about to close it, or by
      the closed channel. */
  ghost predicate OneRight(s: State) {
    && s.closes <= 1
    && (s.locked ==> s.closes == 0)
    && (forall i | IsClosing(s, i) :: s.closes == 0 && !s.locked)
    && (forall i, j | IsClosing(s, i) && IsClosing(s, j) :: i == j)
  }

  ghost predicate NoRight(s: State) {
    s.closes == 0 && !s.locked && forall i | i in s.callers :: !IsClosing(s, i)
  }

  ghost predicate Inv(s: State) {
    && OneRight(s)
    && (s.waiter.AtCheck? || s.waiter.AtLock? ==> NoRight(s))
    && (s.stored != {} ==> s.err in s.stored)
    && (s.ready ==> s.stored != {})
    && (s.closes > 0 ==> s.ready)
    && (forall id | id in s.callers ::
          && (s.callers[id].at.MarkingReady? ==> s.stored != {})
          && (s.callers[id].at.Unlocking? || s.callers[id].at.Closing? ==> s.ready))
    && (s.waiter.AtRead? || s.waiter.Returned? ==> s.ready)
    && (s.waiter.Returned? ==> s.waiter.err in s.stored)
    && (s.waiter.AtChannel? ==> Released(s))
  }

  /** A channel that was waited for is locked, about to be closed, or closed. */
  predicate Released(s: State) {
    s.locked || s.closes > 0 || exists id | id in s.callers :: IsClosing(s, id)
  }

  lemma UnwaitPassesRight(s: State, id: nat)
    requires OneRight(s) && id in s.callers
    ensures OneRight(UnwaitStep(s, id)) && (NoRight(s) ==> NoRight(UnwaitStep(s, id)))
  {
    var t := UnwaitStep(s, id);
    assert IsClosing(s, id) <==> s.callers[id].at.Closing?;
    assert forall i | i != id :: IsClosing(t, i) <==> IsClosing(s, i);
    assert IsClosing(t, id) <==> s.callers[id].at.Unlocking? && s.locked;
  }

  lemma UnwaitKeeps(s: State, id: nat)
    requires Inv(s) && id in s.callers
    ensures Inv(UnwaitStep(s, id))
  {
    UnwaitPassesRight(s, id);
    if s.waiter.AtChannel? { UnwaitReleases(s, id); }
  }

  lemma UnwaitReleases(s: State, id: nat)
    requires Released(s) && id in s.callers
    ensures Released(UnwaitStep(s, id))
  {
    var t := UnwaitStep(s, id);
    if s.locked {
      assert t.locked || IsClosing(t, id);
    } else if s.closes == 0 {
      var c :| c in s.callers && IsClosing(s, c);
      assert t.closes > 0 || IsClosing(t, c);
    }
  }

  lemma StepKeeps(s: State, step: Step)
    requires Inv(s) && Enabled(s, step)
    ensures Inv(Next(s, step))
  {
    match step {
      case Call(id, e) => assert forall i :: IsClosing(Next(s, step), i) <==> IsClosing(s, i);
      case Unwait(id) => UnwaitKeeps(s, id);
      case Wait => assert forall i :: IsClosing(Next(s, step), i) <==> IsClosing(s, i);
    }
  }

  lemma {:induction false} RunKeeps(states: seq<State>, steps: seq<Step>, i: nat)
    requires Run(states, steps) && states[0] == INITIAL && i < |states|
    ensures Inv(states[i])
  {
    if i > 0 {
      RunKeeps(states, steps, i - 1);
      StepKeeps(states[i - 1], steps[i - 1]);
    }
  }

  /** Latch safety in every state of every run: the channel is closed at most once, `wait` has returned only
      if ready was set, and what it returned is an error value that some `unwait` stored. */
  lemma LatchSafety(states: seq<State>, steps: seq<Step>, i: nat)
    requires Run(states, steps) && states[0] == INITIAL && i < |states|
    ensures states[i].closes <= 1
    ensures states[i].waiter.Returned? ==> states[i].ready && states[i].waiter.err in states[i].stored
  {
    RunKeeps(states, steps, i);
  }

  /** Once the latch is ready it stays ready, and an `unwait` that starts then changes nothing but its own position. */
  lemma LateUnwait(s: State, id: nat, step: Step)
    requires s.ready
    ensures id in s.callers && s.callers[id].at.Checking? ==>
              UnwaitStep(s, id) == s.(callers := s.callers[id := Caller(Done, s.callers[id].err)])
    ensures Enabled(s, step) ==> Next(s, step).ready
  {
  }

  /** How many of the steps are the waiter's own. */
  function OwnSteps(steps: seq<Step>): nat {
    if steps == [] then 0 else OwnSteps(steps[..|steps| - 1]) + if steps[|steps| - 1].Wait? then 1 else 0
  }

  /** A waiter that finds the latch ready at its check never blocks: whatever the callers do meanwhile, it is at the
      read after one step of its own and back after two, and each of these steps is always enabled. */
  lemma {:induction false} ReadyReturnsAtOnce(states: seq<State>, steps: seq<Step>)
    requires Run(states, steps) && states[0].ready && states[0].waiter.AtCheck?
    ensures var s, n := states[|steps|], OwnSteps(steps);
            && s.ready
            && (if n == 0 then s.waiter.AtCheck? else if n == 1 then s.waiter.AtRead? else n == 2 && s.waiter.Returned?)
            && (n < 2 ==> Enabled(s, Wait))
  {
    if steps != [] {
      var k := |steps| - 1;
      ReadyReturnsAtOnce(states[..|steps|], steps[..k]);
      assert states[|steps|] == Next(states[k], steps[k]);
    }
  }

  // ---- the lost wake-up ----

  /** The waiter is blocked, the latch is ready, and no caller is left that could close the channel. */
  predicate Stuck(s: State) {
    s.waiter.AtChannel? && s.ready && s.closes == 0 && NoneUnderWay(s)
  }

  /** A stuck waiter never returns, whatever happens. */
  lemma {:induction false} StuckForever(states: seq<State>, steps: seq<Step>, i: nat)
    requires Run(states, steps) && Stuck(states[0]) && i < |states|
    ensures Stuck(states[i])
  {
    if i > 0 {
      StuckForever(states, steps, i - 1);
      assert states[i] == Next(states[i - 1], steps[i - 1]);
    }
  }

  /** No caller is past its own check and still running. */
  predicate NoneUnderWay(s: State) {
    forall id | id in s.callers :: s.callers[id].at.Checking? || s.callers[id].at.Done?
  }

  /** In every state of every run and for every step, the waiter is stuck afterwards exactly when it was
      before, or when it takes the lock after ready was set since its check and every caller past its own
      check has finished. No step of a caller makes it stuck. */
  lemma StuckExactly(states: seq<State>, steps: seq<Step>, i: nat, step: Step)
    requires Run(states, steps) && states[0] == INITIAL && i < |states| && Enabled(states[i], step)
    ensures var s := states[i];
            Stuck(Next(s, step)) <==> Stuck(s) || (step.Wait? && s.waiter.AtLock? && s.ready && NoneUnderWay(s))
  {
    RunKeeps(states, steps, i);
    var s := states[i];
    if step.Unwait? {
      CallerNeverSticks(s, step.id);
    } else if step.Call? && Stuck(Next(s, step)) {
      assert forall id | id in s.callers :: id in Next(s, step).callers && s.callers[id] == Next(s, step).callers[id];
    }
  }

  lemma CallerNeverSticks(s: State, id: nat)
    requires Inv(s) && id in s.callers && !s.callers[id].at.Done?
    ensures Stuck(UnwaitStep(s, id)) <==> Stuck(s)
  {
    var t := UnwaitStep(s, id);
    assert forall i | i in s.callers && i != id :: i in t.callers && t.callers[i] == s.callers[i];
    if Stuck(t) {
      UnwaitReleases(s, id);
      assert t.locked && !IsClosing(t, id);
      assert id in t.callers && t.callers[id].at.Done?;
    }
  }

  /** Such a run exists: one caller slips in between the ready check and the lock. */
  lemma LostWakeup(e: Error) returns (states: seq<State>, steps: seq<Step>)
    ensures Run(states, steps) && states[0] == INITIAL && Stuck(states[|steps|])
  {
    var s1 := INITIAL.(waiter := AtLock);
    var s2 := s1.(callers := map[0 := Caller(Checking, e)]);
    var s3 := s1.(callers := map[0 := Caller(Storing, e)]);
    var s4 := s1.(callers := map[0 := Caller(MarkingReady, e)], err := e, stored := {e});
    var s5 := s4.(callers := map[0 := Caller(Unlocking, e)], ready := true);
    var s6 := s5.(callers := map[0 := Caller(Done, e)]);
    var s7 := s6.(waiter := AtChannel, locked := true);
    states := [INITIAL, s1, s2, s3, s4, s5, s6, s7];
    steps := [Wait, Call(0, e), Unwait(0), Unwait(0), Unwait(0), Unwait(0), Wait];
    assert s2 == Next(s1, Call(0, e));
    assert s3 == Next(s2, Unwait(0));
    assert s4 == Next(s3, Unwait(0));
    assert s5 == Next(s4, Unwait(0));
    assert s6 == Next(s5, Unwait(0));
  }
}
