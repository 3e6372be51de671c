/** What a crash loses: the session restarts from its last written state, while verdicts it has taken and
    continuations it has sent since then have happened (workspace/moderator/src/adapter.ts). */
module DrainLoss {
  import opened Base
  import opened Fsm
  import opened FsmRuns
  import opened FsmMemory
  import opened Drain
  import opened DrainAudit

  // ---------------------------------------------------------------- a count that is never rolled back

  /** Since the count last restarted, over all epochs: the stalled verdicts that were taken with no blocker
      standing, the continuations that were sent for such a verdict or may have been, and the crashes. */
  datatype Tally = Tally(stalls: nat, sent: nat, crashes: nat)

  const NONE := Tally(0, 0, 0)

  predicate AnswersStall(f: Effect) {
    f == SendContinuation(Stalled)
  }

  /** The effect that the body waits for. */
  function Awaited(b: Body): Option<Effect> {
    if b.Performing? && |b.outcomes| < |b.result.effects| then Some(b.result.effects[|b.outcomes|]) else None
  }

  /** A continuation for a stalled verdict is on its way. */
  predicate OnItsWay(s: System) {
    s.bodies != [] && Awaited(s.bodies[0]) == Some(SendContinuation(Stalled))
  }

  function Counted(t: Tally, s: System, step: Step): Tally
    requires Enabled(s, step)
  {
    match step
    case Loop(_) =>
      if s.queue == [] then t
      else
        var e := s.queue[0].event;
        if RestartsCount(s.state, e, s.state.consecutiveNoProgressCount) then NONE
        else if UnblockedStall(s.state, e) then t.(stalls := t.stalls + 1)
        else t
    case Perform(_, _) => if OnItsWay(s) then t.(sent := t.sent + 1) else t
    case CrashNow => Tally(t.stalls, t.sent + (if OnItsWay(s) then 1 else 0), t.crashes + 1)
    case _ => t
  }

  function TallyAfter(t: Tally, s: System, steps: seq<Step>): Tally
    requires Possible(s, steps)
    decreases steps
  {
    if steps == [] then t else TallyAfter(Counted(t, s, steps[0]), Apply(s, steps[0]), steps[1..])
  }

  lemma {:induction false} OneAfterAnother(t: Tally, s: System, a: seq<Step>, b: seq<Step>)
    requires Possible(s, a) && Possible(After(s, a), b)
    ensures Possible(s, a + b) && After(s, a + b) == After(After(s, a), b)
    ensures TallyAfter(t, s, a + b) == TallyAfter(TallyAfter(t, s, a), After(s, a), b)
    decreases a
  {
    if a == [] {
      assert a + b == b;
    } else {
      OneAfterAnother(Counted(t, s, a[0]), Apply(s, a[0]), a[1..], b);
      assert (a + b)[0] == a[0] && (a + b)[1..] == a[1..] + b;
    }
  }

  // ---------------------------------------------------------------- the count that the session knows

  /** The session has read its state file, or found that it cannot. */
  predicate Live(s: System) {
    s.restored && !(s.bodies != [] && s.bodies[0].Restoring?)
  }

  /** The state that the session has, or will have once it reads its state file. */
  function KnownState(s: System): State {
    if Live(s) then s.state else Resumed(s.disk)
  }

  function KnownCount(s: System): int {
    KnownState(s).consecutiveNoProgressCount
  }

  predicate CountBounded(s: System) {
    && 0 <= s.state.consecutiveNoProgressCount <= ESCALATION_LIMIT
    && (s.disk.Stored? ==> 0 <= s.disk.state.consecutiveNoProgressCount <= ESCALATION_LIMIT)
  }

  lemma CountBoundedStep(s: System, step: Step)
    requires CountBounded(s) && Enabled(s, step)
    ensures CountBounded(Apply(s, step))
  {
    match step
    case Loop(_) =>
      if s.queue != [] {
        StallCountStep(s.state, s.queue[0].event);
      }
    case _ =>
  }

  /** The event that was taken and whose state is not written yet, with the state it was taken in. */
  function InProgress(s: System): Option<(State, Event)> {
    if !Live(s) || s.bodies == [] then None
    else
      match s.bodies[0]
      case Performing(entry, previous, _, _, _) => Some((previous, entry.event))
      case Appending(entry, previous, _, _) => Some((previous, entry.event))
      case Persisting => if s.log == [] then None else Some((s.log[|s.log| - 1].previous, s.log[|s.log| - 1].event))
      case _ => None
  }

  /** The state file is behind the session by the event in progress, as far as the count goes. */
  lemma FileIsOneEventBehind(s: System, first: Snapshot)
    requires Audited(s, first) && Live(s)
    ensures var stored := Resumed(s.disk).consecutiveNoProgressCount;
            match InProgress(s)
            case None => s.state.consecutiveNoProgressCount == stored
            case Some((p, e)) =>
              IsValidState(p) && p.consecutiveNoProgressCount == stored && s.state == Next(p, e).state
  {
    if s.bodies != [] && s.bodies[0].Persisting? {
      var n := |s.log| - 1;
      assert Linked(s.log, first, n);
      if !FirstOfEpoch(s.log, n) {
        var before := s.log[..n];
        assert before[|before| - 1] == s.log[n - 1] && s.log[n - 1].saved;
        assert LastSaved(s.log, first) == LastSaved(before, first) == Stored(s.log[n - 1].snapshot);
      }
    }
  }

  /** The event changes the count. */
  predicate MovesCount(s: State, e: Event) {
    if RestartsCount(s, e, s.consecutiveNoProgressCount) then s.consecutiveNoProgressCount != 0
    else UnblockedStall(s, e)
  }

  lemma MovesCountExactly(s: State, e: Event)
    requires 0 <= s.consecutiveNoProgressCount <= ESCALATION_LIMIT
    ensures Next(s, e).state.consecutiveNoProgressCount != s.consecutiveNoProgressCount <==> MovesCount(s, e)
    ensures Next(s, e).state.consecutiveNoProgressCount <= s.consecutiveNoProgressCount + 1
  {
    StallCountStep(s, e);
  }

  /** A crash now takes back a change of the count. */
  predicate CrashDrops(s: System) {
    InProgress(s).Some? && MovesCount(InProgress(s).value.0, InProgress(s).value.1)
  }

  /** A crash leaves the known count alone exactly when no event that changes it is unwritten; it never
      takes back more than one stalled verdict. */
  lemma CrashKeepsCountExactly(s: System, first: Snapshot)
    requires Audited(s, first) && CountBounded(s)
    ensures KnownCount(DoCrash(s)) == KnownCount(s) <==> !CrashDrops(s)
    ensures KnownCount(DoCrash(s)) >= KnownCount(s) - 1
  {
    if Live(s) {
      FileIsOneEventBehind(s, first);
      if InProgress(s).Some? {
        MovesCountExactly(InProgress(s).value.0, InProgress(s).value.1);
      }
    }
  }

  lemma KnownStays(s: System, t: System)
    requires Live(t) == Live(s) && t.state == s.state && (Live(s) || t.disk == s.disk)
    ensures KnownState(t) == KnownState(s)
  {
  }

  lemma ArriveShape(s: System, e: Event)
    requires SingleWorker(s)
    ensures var t := DoArrive(s, e);
            Live(t) == Live(s) && t.state == s.state && t.disk == s.disk && t.log == s.log && t.epoch == s.epoch
  {
    if s.bodies != [] {
      assert DoArrive(s, e).bodies == s.bodies;
    }
  }

  lemma WriteShape(s: System, i: nat, written: bool)
    requires SingleWorker(s)
    ensures Enabled(s, Append(i, written)) ==>
              Live(s) && Live(DoAppend(s, i, written)) && DoAppend(s, i, written).state == s.state
    ensures Enabled(s, Persist(i, written)) ==>
              Live(s) && Live(DoPersist(s, i, written)) && DoPersist(s, i, written).state == s.state
  {
    if i < |s.bodies| {
      LeaveShape(s, i);
    }
  }

  lemma RestoreKeepsState(s: System, first: Snapshot, i: nat)
    requires Audited(s, first) && Enabled(s, Restore(i, true))
    ensures KnownState(DoRestore(s, i, true)) == KnownState(s)
  {
    LeaveShape(s, i);
  }

  lemma ArriveKeepsState(s: System, e: Event)
    requires SingleWorker(s)
    ensures KnownState(DoArrive(s, e)) == KnownState(s)
  {
    ArriveShape(s, e);
    KnownStays(s, DoArrive(s, e));
  }

  lemma PerformKeepsState(s: System, i: nat, answer: Answer)
    requires SingleWorker(s) && Enabled(s, Perform(i, answer))
    ensures KnownState(DoPerform(s, i, answer)) == KnownState(s)
  {
    PerformShape(s, i, answer);
    KnownStays(s, DoPerform(s, i, answer));
  }

  lemma WriteKeepsState(s: System, i: nat, written: bool)
    requires SingleWorker(s)
    ensures Enabled(s, Append(i, written)) ==> KnownState(DoAppend(s, i, written)) == KnownState(s)
    ensures Enabled(s, Persist(i, written)) ==> KnownState(DoPersist(s, i, written)) == KnownState(s)
  {
    WriteShape(s, i, written);
  }

  /** With working files only a taken event and a crash change the known state. */
  lemma KnownStateStays(s: System, first: Snapshot, step: Step)
    requires Audited(s, first) && Enabled(s, step) && Reliable(step) && !step.CrashNow? && !step.Loop?
    ensures KnownState(Apply(s, step)) == KnownState(s)
  {
    match step
    case Arrive(e) => ArriveKeepsState(s, e);
    case Perform(i, answer) => PerformKeepsState(s, i, answer);
    case Restore(i, _) => RestoreKeepsState(s, first, i);
    case Append(i, written) => WriteKeepsState(s, i, written);
    case Persist(i, written) => WriteKeepsState(s, i, written);
  }

  lemma LoopMovesCount(s: System, t: Tally, i: nat)
    requires SingleWorker(s) && CountBounded(s) && Enabled(s, Loop(i))
    ensures KnownCount(DoLoop(s, i)) ==
            if s.queue != [] && RestartsCount(s.state, s.queue[0].event, s.state.consecutiveNoProgressCount) then 0
            else KnownCount(s) + Counted(t, s, Loop(i)).stalls - t.stalls
  {
    if s.queue == [] {
      LeaveShape(s, i);
    } else {
      StallCountStep(s.state, s.queue[0].event);
      assert Live(s) && Live(DoLoop(s, i));
    }
  }

  /** No other step of a run with working files moves the known count apart from the tally. */
  lemma CountsMoveTogether(s: System, first: Snapshot, t: Tally, step: Step)
    requires Audited(s, first) && CountBounded(s) && Enabled(s, step) && Reliable(step) && !step.CrashNow?
    ensures KnownCount(Apply(s, step)) ==
            if step.Loop? && s.queue != []
               && RestartsCount(s.state, s.queue[0].event, s.state.consecutiveNoProgressCount) then 0
            else KnownCount(s) + Counted(t, s, step).stalls - t.stalls
  {
    if step.Loop? {
      LoopMovesCount(s, t, step.body);
    } else {
      KnownStateStays(s, first, step);
    }
  }

  // ---------------------------------------------------------------- when the count is exact

  /** At every moment of the run the known count is the number of stalled verdicts since the restart. */
  predicate ExactAlong(t: Tally, s: System, steps: seq<Step>)
    requires Possible(s, steps)
    decreases steps
  {
    && KnownCount(s) == t.stalls
    && (steps != [] ==> ExactAlong(Counted(t, s, steps[0]), Apply(s, steps[0]), steps[1..]))
  }

  predicate NoCrashDrops(s: System, steps: seq<Step>)
    requires Possible(s, steps)
    decreases steps
  {
    steps != [] ==> !(steps[0].CrashNow? && CrashDrops(s)) && NoCrashDrops(Apply(s, steps[0]), steps[1..])
  }

  /** In a run with working files the count is exact all along if and only if no crash comes between taking
      an event that changes the count and writing the state. */
  lemma {:induction false} CountIsExactWhenNothingDrops(t: Tally, s: System, first: Snapshot, steps: seq<Step>)
    requires Audited(s, first) && CountBounded(s) && KnownCount(s) == t.stalls
    requires Possible(s, steps) && forall step <- steps :: Reliable(step)
    ensures ExactAlong(t, s, steps) <==> NoCrashDrops(s, steps)
    decreases steps
  {
    if steps != [] {
      var step := steps[0];
      var next, counted := Apply(s, step), Counted(t, s, step);
      AuditedStep(s, first, step);
      CountBoundedStep(s, step);
      if step.CrashNow? {
        CrashKeepsCountExactly(s, first);
      } else {
        CountsMoveTogether(s, first, t, step);
      }
      if KnownCount(next) == counted.stalls {
        CountIsExactWhenNothingDrops(counted, next, first, steps[1..]);
      } else {
        assert !ExactAlong(counted, next, steps[1..]);
      }
    }
  }

  // ---------------------------------------------------------------- how many continuations

  /** Continuations for stalled verdicts that the body has still to send. */
  function Pending(s: System): nat {
    if s.bodies == [] || !s.bodies[0].Performing? || |s.bodies[0].outcomes| > |s.bodies[0].result.effects| then 0
    else Requests(s.bodies[0].result.effects[|s.bodies[0].outcomes|..], AnswersStall)
  }

  /** A transition asks for such a continuation exactly for an unblocked stalled verdict below the limit. */
  lemma StallRequests(s: State, e: Event)
    ensures Requests(Next(s, e).effects, AnswersStall) ==
            if UnblockedStall(s, e) && s.consecutiveNoProgressCount + 1 < ESCALATION_LIMIT then 1 else 0
  {
    var effects := Next(s, e).effects;
    EffectPlaces(s, e);
    RequestsAtOnePlace(effects, AnswersStall, 3);
    SendsExactly(s, e);
    if 3 < |effects| && effects[3].SendContinuation? {
      VerdictsAreTheEvents(s, e, 3);
    }
  }

  /** Answers are bounded by the count, capped at two. */
  function Capped(count: int): int {
    if count < 2 then count else 2
  }

  lemma PendingLoop(s: System, i: nat)
    requires SingleWorker(s) && CountBounded(s) && Enabled(s, Loop(i)) && s.queue != []
    ensures var e := s.queue[0].event;
            var restart := RestartsCount(s.state, e, s.state.consecutiveNoProgressCount);
            && Pending(s) == 0
            && (restart ==> Pending(DoLoop(s, i)) == 0)
            && (!restart ==>
                  Capped(s.state.consecutiveNoProgressCount) + Pending(DoLoop(s, i))
                  <= Capped(DoLoop(s, i).state.consecutiveNoProgressCount))
  {
    var e := s.queue[0].event;
    StallRequests(s.state, e);
    StallCountStep(s.state, e);
    var t := DoLoop(s, i);
    assert t.bodies[0].result == Next(s.state, e);
    assert t.bodies[0].result.effects[0..] == Next(s.state, e).effects;
  }

  lemma PendingPerform(s: System, i: nat, answer: Answer)
    requires SingleWorker(s) && Enabled(s, Perform(i, answer))
    ensures Pending(s) == Pending(DoPerform(s, i, answer)) + if OnItsWay(s) then 1 else 0
  {
    PerformShape(s, i, answer);
    var b := s.bodies[i];
    var rest := b.result.effects[|b.outcomes|..];
    assert rest[0] == b.result.effects[|b.outcomes|];
    assert rest[1..] == b.result.effects[|b.outcomes| + 1..];
    assert Requests(rest, AnswersStall) == (if AnswersStall(rest[0]) then 1 else 0) + Requests(rest[1..], AnswersStall);
  }

  lemma OnItsWayIsPending(s: System)
    requires OnItsWay(s)
    ensures Pending(s) >= 1
  {
  }

  /** Neither arrivals nor the files make anything pending. */
  lemma PendingStays(s: System, step: Step)
    requires SingleWorker(s) && Enabled(s, step) && !step.Loop? && !step.Perform?
    ensures Pending(Apply(s, step)) <= Pending(s)
  {
    match step
    case Arrive(e) =>
      if s.bodies != [] {
        assert DoArrive(s, e).bodies == s.bodies;
      }
    case Restore(i, _) => LeaveShape(s, i);
    case Append(i, _) => LeaveShape(s, i);
    case Persist(i, _) => LeaveShape(s, i);
    case CrashNow =>
  }

  /** With working files: the answers sent or still to send, against the known count and the crashes. */
  predicate Accounted(t: Tally, s: System) {
    t.sent + Pending(s) <= Capped(KnownCount(s)) + t.crashes
  }

  lemma AccountedLoop(t: Tally, s: System, i: nat)
    requires SingleWorker(s) && CountBounded(s) && Enabled(s, Loop(i)) && Accounted(t, s)
    ensures Accounted(Counted(t, s, Loop(i)), DoLoop(s, i))
  {
    LoopMovesCount(s, t, i);
    if s.queue == [] {
      LeaveShape(s, i);
    } else {
      PendingLoop(s, i);
      assert Live(s) && Live(DoLoop(s, i));
    }
  }

  lemma AccountedStep(t: Tally, s: System, first: Snapshot, step: Step)
    requires Audited(s, first) && CountBounded(s) && Enabled(s, step) && Reliable(step) && Accounted(t, s)
    ensures Accounted(Counted(t, s, step), Apply(s, step))
  {
    match step
    case Loop(i) => AccountedLoop(t, s, i);
    case CrashNow =>
      CrashKeepsCountExactly(s, first);
      if OnItsWay(s) {
        OnItsWayIsPending(s);
      }
    case Perform(i, answer) =>
      CountsMoveTogether(s, first, t, step);
      PendingPerform(s, i, answer);
    case _ =>
      CountsMoveTogether(s, first, t, step);
      PendingStays(s, step);
  }

  lemma {:induction false} AccountedAlways(t: Tally, s: System, first: Snapshot, steps: seq<Step>)
    requires Audited(s, first) && CountBounded(s) && Accounted(t, s)
    requires Possible(s, steps) && forall step <- steps :: Reliable(step)
    ensures Accounted(TallyAfter(t, s, steps), After(s, steps)) && CountBounded(After(s, steps))
    ensures Audited(After(s, steps), first)
    decreases steps
  {
    if steps != [] {
      AccountedStep(t, s, first, steps[0]);
      AuditedStep(s, first, steps[0]);
      CountBoundedStep(s, steps[0]);
      AccountedAlways(Counted(t, s, steps[0]), Apply(s, steps[0]), first, steps[1..]);
    }
  }

  /** Whatever the files do: each crash may allow two more. */
  predicate LooselyAccounted(t: Tally, s: System) {
    && (!Live(s) ==> s.state == INITIAL)
    && t.sent + Pending(s) <= Capped(s.state.consecutiveNoProgressCount) + 2 * t.crashes
  }

  lemma LooseLoop(t: Tally, s: System, i: nat)
    requires SingleWorker(s) && CountBounded(s) && Enabled(s, Loop(i)) && LooselyAccounted(t, s)
    ensures LooselyAccounted(Counted(t, s, Loop(i)), DoLoop(s, i))
  {
    if s.queue == [] {
      LeaveShape(s, i);
    } else {
      PendingLoop(s, i);
      StallCountStep(s.state, s.queue[0].event);
    }
  }

  lemma LooseRestore(t: Tally, s: System, i: nat, readable: bool)
    requires SingleWorker(s) && CountBounded(s) && Enabled(s, Restore(i, readable)) && LooselyAccounted(t, s)
    ensures LooselyAccounted(t, DoRestore(s, i, readable))
  {
    LeaveShape(s, i);
    PendingStays(s, Restore(i, readable));
  }

  lemma LooseStep(t: Tally, s: System, step: Step)
    requires SingleWorker(s) && CountBounded(s) && Enabled(s, step) && LooselyAccounted(t, s)
    ensures LooselyAccounted(Counted(t, s, step), Apply(s, step))
  {
    match step
    case Loop(i) => LooseLoop(t, s, i);
    case Restore(i, readable) => LooseRestore(t, s, i, readable);
    case CrashNow =>
      if OnItsWay(s) {
        OnItsWayIsPending(s);
      }
    case Perform(i, answer) =>
      PerformShape(s, i, answer);
      PendingPerform(s, i, answer);
    case Arrive(e) =>
      ArriveShape(s, e);
      PendingStays(s, step);
    case Append(i, written) =>
      WriteShape(s, i, written);
      PendingStays(s, step);
    case Persist(i, written) =>
      WriteShape(s, i, written);
      PendingStays(s, step);
  }

  lemma {:induction false} LooseAlways(t: Tally, s: System, steps: seq<Step>)
    requires SingleWorker(s) && CountBounded(s) && LooselyAccounted(t, s) && Possible(s, steps)
    ensures LooselyAccounted(TallyAfter(t, s, steps), After(s, steps)) && CountBounded(After(s, steps))
    decreases steps
  {
    if steps != [] {
      LooseStep(t, s, steps[0]);
      SingleWorkerStep(s, steps[0]);
      CountBoundedStep(s, steps[0]);
      LooseAlways(Counted(t, s, steps[0]), Apply(s, steps[0]), steps[1..]);
    }
  }

  /** Since the last restart of the count at most two continuations answer stalled verdicts, and one more
      for each crash; when reads or writes fail as well, two more for each crash. */
  lemma ContinuationsAreBounded(steps: seq<Step>)
    requires Possible(Fresh(Missing), steps)
    ensures var t := TallyAfter(NONE, Fresh(Missing), steps);
            && t.sent <= 2 + 2 * t.crashes
            && ((forall step <- steps :: Reliable(step)) ==> t.sent <= 2 + t.crashes)
  {
    LooseAlways(NONE, Fresh(Missing), steps);
    if forall step <- steps :: Reliable(step) {
      AccountedAlways(NONE, Fresh(Missing), Missing, steps);
    }
  }

  /** A session's stall count over its whole life, on working files: exact at every moment if and only if no
      crash comes between a taken event that changes it and the state write after that event. */
  lemma SessionCountIsExactWhenNothingDrops(steps: seq<Step>)
    requires Possible(Fresh(Missing), steps) && forall step <- steps :: Reliable(step)
    ensures ExactAlong(NONE, Fresh(Missing), steps) <==> NoCrashDrops(Fresh(Missing), steps)
  {
    CountIsExactWhenNothingDrops(NONE, Fresh(Missing), Missing, steps);
  }

  // ---------------------------------------------------------------- the loss is real

  const TURN := TurnFact(Some("message"), None, Build, 0, true, false, false, false, false, false, false, false,
                         false, false)

  const STALL := Entry(VerdictGiven(Stalled, None), FollowUp)

  /** The state after a replay of the turn has been taken. */
  const REPLAYED := Next(INITIAL, Replay(TURN)).state

  /** A dead session whose file, if there is one, restores to the initial state. */
  predicate Resting(s: System) {
    && s.bodies == [] && s.queue == [] && !s.draining && !s.restored && s.state == INITIAL
    && (s.disk.Missing?
        || (s.disk.Stored? && IsValidState(s.disk.state) && NormalizeRestored(s.disk.state) == INITIAL))
  }

  /** The body has taken the event in the state `previous` and ended `count` of its effects. */
  predicate Took(s: System, e: Event, previous: State, count: nat, queue: seq<Entry>) {
    && s.restored && s.draining && s.queue == queue && s.context == Some(TURN)
    && s.state == Next(previous, e).state && IsValidState(s.state) && |s.bodies| == 1
    && count <= |Next(previous, e).effects|
    && match s.bodies[0]
       case Performing(entry, p, result, outcomes, captured) =>
         entry.event == e && p == previous && result == Next(previous, e) && captured == Some(TURN)
         && |outcomes| == count < |result.effects|
       case Appending(entry, p, result, outcomes) =>
         entry.event == e && p == previous && result == Next(previous, e) && count == |result.effects|
       case _ => false
  }

  /** The steps lead from one place to another, with working files. */
  predicate Leads(s: System, t: Tally, steps: seq<Step>, s': System, t': Tally) {
    && Possible(s, steps) && After(s, steps) == s' && TallyAfter(t, s, steps) == t'
    && forall step <- steps :: Reliable(step)
  }

  lemma OneStepOn(s: System, t: Tally, steps: seq<Step>, s': System, t': Tally, step: Step)
    requires Leads(s, t, steps, s', t') && Enabled(s', step) && Reliable(step)
    ensures Leads(s, t, steps + [step], Apply(s', step), Counted(t', s', step))
  {
    assert [step][1..] == [];
    assert Possible(Apply(s', step), []) && After(Apply(s', step), []) == Apply(s', step);
    assert TallyAfter(Counted(t', s', step), Apply(s', step), []) == Counted(t', s', step);
    OneAfterAnother(t, s, steps, [step]);
  }

  lemma EffectsOfReplay()
    ensures Next(INITIAL, Replay(TURN)).effects == [WriteDecision(Checking), ShowToast(CheckingToast), Classify]
    ensures IsValidState(REPLAYED) && NormalizeRestored(REPLAYED) == INITIAL
    ensures !RestartsCount(INITIAL, Replay(TURN), 0) && !UnblockedStall(INITIAL, Replay(TURN))
  {
  }

  lemma EffectsOfStall()
    ensures Next(REPLAYED, STALL.event).effects
            == [WriteDecision(ModerationContinue), WriteTrace(Some(Stalled)), ShowToast(ContinuingToast),
                SendContinuation(Stalled)]
    ensures IsValidState(Next(REPLAYED, STALL.event).state) && REPLAYED.consecutiveNoProgressCount == 0
    ensures !RestartsCount(REPLAYED, STALL.event, 0) && UnblockedStall(REPLAYED, STALL.event)
  {
  }

  lemma TakeReplay(s: System, t: Tally) returns (steps: seq<Step>, s': System)
    requires Resting(s)
    ensures Leads(s, t, steps, s', t) && Took(s', Replay(TURN), INITIAL, 0, [])
  {
    EffectsOfReplay();
    var arrived := Apply(s, Arrive(Replay(TURN)));
    assert arrived.bodies == [Restoring] && arrived.queue[1..] == [];
    var restored := Apply(arrived, Restore(0, true));
    assert restored.bodies == [AtLoop] && restored.state == INITIAL;
    OneStepOn(s, t, [], s, t, Arrive(Replay(TURN)));
    OneStepOn(s, t, [] + [Arrive(Replay(TURN))], arrived, t, Restore(0, true));
    OneStepOn(s, t, [] + [Arrive(Replay(TURN))] + [Restore(0, true)], restored, t, Loop(0));
    steps, s' := [] + [Arrive(Replay(TURN))] + [Restore(0, true)] + [Loop(0)], Apply(restored, Loop(0));
  }

  /** One effect ends well. */
  lemma EndEffect(
    s: System, t: Tally, steps: seq<Step>, s': System, t': Tally, answer: Answer,
    e: Event, previous: State, count: nat, queue: seq<Entry>)
    returns (steps': seq<Step>, next: System)
    requires Leads(s, t, steps, s', t') && Took(s', e, previous, count, queue)
    requires count < |Next(previous, e).effects| && !answer.Loads?
    requires Fits(Next(previous, e).effects[count], answer, Some(TURN), s'.state)
    ensures var f := Next(previous, e).effects[count];
            var followup := FollowUpOf(f, answer, Some(TURN));
            && Leads(s, t, steps', next, if AnswersStall(f) then t'.(sent := t'.sent + 1) else t')
            && Took(next, e, previous, count + 1,
                    (if followup.Some? then [Entry(followup.value, FollowUp)] else []) + queue)
            && next.disk == s'.disk
  {
    OneStepOn(s, t, steps, s', t', Perform(0, answer));
    steps', next := steps + [Perform(0, answer)], Apply(s', Perform(0, answer));
  }

  /** The replayed message is classified as stalled, and the record and the state are written. */
  lemma ReplayIsClassified(s: System, t: Tally) returns (steps: seq<Step>, s': System)
    requires Resting(s)
    ensures Leads(s, t, steps, s', t)
    ensures s'.restored && s'.draining && s'.bodies == [AtLoop] && s'.queue == [STALL]
    ensures s'.state == REPLAYED && s'.disk == Stored(REPLAYED) && s'.context == Some(TURN)
  {
    EffectsOfReplay();
    var a, a' := TakeReplay(s, t);
    var b, b' := EndEffect(s, t, a, a', t, Succeeds, Replay(TURN), INITIAL, 0, []);
    var c, c' := EndEffect(s, t, b, b', t, Succeeds, Replay(TURN), INITIAL, 1, []);
    var d, d' := EndEffect(s, t, c, c', t, Judges(Stalled), Replay(TURN), INITIAL, 2, []);
    assert [Entry(VerdictGiven(Stalled, None), FollowUp)] + [] == [STALL];
    OneStepOn(s, t, d, d', t, Append(0, true));
    var written := Apply(d', Append(0, true));
    OneStepOn(s, t, d + [Append(0, true)], written, t, Persist(0, true));
    steps, s' := d + [Append(0, true)] + [Persist(0, true)], Apply(written, Persist(0, true));
  }

  lemma TakeStall(s: System, t: Tally, steps: seq<Step>, s': System) returns (steps': seq<Step>, next: System)
    requires Leads(s, t, steps, s', t) && s'.restored && s'.draining && s'.bodies == [AtLoop] && s'.queue == [STALL]
    requires s'.state == REPLAYED && s'.context == Some(TURN)
    ensures Leads(s, t, steps', next, t.(stalls := t.stalls + 1))
    ensures Took(next, STALL.event, REPLAYED, 0, []) && next.disk == s'.disk
  {
    EffectsOfStall();
    OneStepOn(s, t, steps, s', t, Loop(0));
    steps', next := steps + [Loop(0)], Apply(s', Loop(0));
  }

  /** The stalled verdict is taken and its continuation is sent. */
  lemma StallIsAnswered(s: System, t: Tally) returns (steps: seq<Step>, s': System, queue: seq<Entry>)
    requires Resting(s)
    ensures Leads(s, t, steps, s', t.(stalls := t.stalls + 1, sent := t.sent + 1))
    ensures Took(s', STALL.event, REPLAYED, 4, queue) && s'.disk == Stored(REPLAYED)
  {
    EffectsOfStall();
    var a, a' := ReplayIsClassified(s, t);
    var b, b' := TakeStall(s, t, a, a');
    var u := t.(stalls := t.stalls + 1);
    var c, c' := EndEffect(s, t, b, b', u, Succeeds, STALL.event, REPLAYED, 0, []);
    var d, d' := EndEffect(s, t, c, c', u, Succeeds, STALL.event, REPLAYED, 1, c'.queue);
    var e, e' := EndEffect(s, t, d, d', u, Succeeds, STALL.event, REPLAYED, 2, d'.queue);
    steps, s' := EndEffect(s, t, e, e', u, Succeeds, STALL.event, REPLAYED, 3, e'.queue);
    queue := s'.queue;
  }

  /** One life of the session: a verdict is taken, recorded with its continuation sent, and lost. */
  lemma OneLoss(s: System, t: Tally) returns (steps: seq<Step>, s': System)
    requires Resting(s)
    ensures Leads(s, t, steps, s', Tally(t.stalls + 1, t.sent + 1, t.crashes + 1)) && Resting(s')
    ensures s'.log != [] && s'.log[|s'.log| - 1].event == STALL.event
    ensures s'.log[|s'.log| - 1].snapshot.consecutiveNoProgressCount == 1 && Resumed(s'.disk) == INITIAL
  {
    var a, a', queue := StallIsAnswered(s, t);
    EffectsOfReplay();
    EffectsOfStall();
    var sent := t.(stalls := t.stalls + 1, sent := t.sent + 1);
    OneStepOn(s, t, a, a', sent, Append(0, true));
    var written := Apply(a', Append(0, true));
    assert !OnItsWay(written);
    OneStepOn(s, t, a + [Append(0, true)], written, sent, CrashNow);
    steps, s' := a + [Append(0, true)] + [CrashNow], Apply(written, CrashNow);
  }

  /** So without the crashes in the bound there is none: for every number there is a run with working files
      that sends so many continuations for stalled verdicts, with one crash each and no restart of the count
      between them, and the session that restarts after it knows of none. */
  lemma {:induction false} LossIsUnbounded(n: nat) returns (steps: seq<Step>)
    ensures (forall step <- steps :: Reliable(step)) && Possible(Fresh(Missing), steps)
    ensures TallyAfter(NONE, Fresh(Missing), steps) == Tally(n, n, n)
    ensures KnownCount(After(Fresh(Missing), steps)) == 0
  {
    var s: System;
    steps, s := ManyLosses(n);
  }

  lemma {:induction false} ManyLosses(n: nat) returns (steps: seq<Step>, s: System)
    ensures Leads(Fresh(Missing), NONE, steps, s, Tally(n, n, n)) && Resting(s)
  {
    if n == 0 {
      steps, s := [], Fresh(Missing);
    } else {
      var before, b := ManyLosses(n - 1);
      var more, m := OneLoss(b, Tally(n - 1, n - 1, n - 1));
      OneAfterAnother(NONE, Fresh(Missing), before, more);
      steps, s := before + more, m;
    }
  }
}
