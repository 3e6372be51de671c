/** What the effects of an event lead to: each one that can fail answers with an event or with an error, and
    no classification or continuation is left hanging (workspace/moderator/src/adapter.ts). */
module DrainResolve {
  import opened Base
  import opened Fsm
  import opened FsmRuns
  import opened FsmMemory
  import opened FsmPhases
  import opened Drain
  import opened DrainProgress
  import opened DrainLoss

  // ---------------------------------------------------------------- what an ended effect puts in front

  /** Whatever fails puts an error in front of everything that waits. */
  lemma FailureGoesFirst(s: System, i: nat)
    requires Enabled(s, Perform(i, Fails))
    ensures var t := DoPerform(s, i, Fails);
            t.queue == [Entry(EffectError, FollowUp)] + s.queue && t.state == s.state && t.context == s.context
  {
  }

  /** Only decisions and toasts cannot fail. */
  lemma WhatCanFail(s: System, i: nat)
    requires i < |s.bodies| && Awaited(s.bodies[i]).Some?
    ensures Enabled(s, Perform(i, Fails)) <==>
            !Awaited(s.bodies[i]).value.WriteDecision? && !Awaited(s.bodies[i]).value.ShowToast?
  {
  }

  /** What does not fail answers with the event of the effect that ended: the loaded context with the user
      message that it found, the verdict for the context that the effect started from, or the confirmation
      of a trace or a continuation. */
  lemma AnswerGoesFirst(s: System, i: nat, answer: Answer)
    requires Enabled(s, Perform(i, answer)) && answer != Fails
    ensures var t, b := DoPerform(s, i, answer), s.bodies[i];
            && t.state == s.state
            && (if answer.Loads? then t.context == Some(answer.turn) else t.context == s.context)
            && match b.result.effects[|b.outcomes|]
               case LoadContext =>
                 answer.Loads?
                 && t.queue == [Entry(ContextLoaded(answer.turn, answer.turn.userMessageID), FollowUp)] + s.queue
               case Classify =>
                 answer.Judges? && b.captured.Some?
                 && t.queue == [Entry(VerdictGiven(answer.verdict, b.captured.value.userMessageID), FollowUp)] + s.queue
               case WriteTrace(_) => t.queue == [Entry(TracePersisted, FollowUp)] + s.queue
               case SendContinuation(_) => t.queue == [Entry(ContinuationPersisted, FollowUp)] + s.queue
               case _ => t.queue == s.queue
  {
  }

  /** Each effect notes its outcome, in order, and starts from the context that the one before it left; after
      the last one the record is written. */
  lemma OutcomesAreNoted(s: System, i: nat, answer: Answer)
    requires SingleWorker(s) && Enabled(s, Perform(i, answer))
    ensures var b, t := s.bodies[i], DoPerform(s, i, answer);
            var outcomes := b.outcomes + [answer != Fails];
            t.bodies == [if |outcomes| == |b.result.effects| then Appending(b.entry, b.previous, b.result, outcomes)
                         else Performing(b.entry, b.previous, b.result, outcomes, t.context)]
  {
    PerformShape(s, i, answer);
  }

  /** A taken event starts its first effect from the context of the session, and a replay brings its own. */
  lemma TakenWithContext(s: System, i: nat)
    requires SingleWorker(s) && Enabled(s, Loop(i)) && s.queue != []
    ensures var t, e := DoLoop(s, i), s.queue[0];
            && t.bodies == [Performing(e, s.state, Next(s.state, e.event), [], s.context)]
            && t.state == Next(s.state, e.event).state && t.context == s.context
  {
  }

  lemma ArrivalBringsContext(s: System, e: Event)
    requires SingleWorker(s)
    ensures var t := DoArrive(s, e);
            && t.context == (if e.Replay? then Some(e.turn) else s.context)
            && t.queue == s.queue + [Entry(e, Outside(s.arrivals))] && t.state == s.state
            && t.bodies == if s.bodies != [] then s.bodies else [if s.restored then AtLoop else Restoring]
  {
  }

  /** Only hooks, replays and failing reads of the plugin come from outside. */
  lemma ExternalExactly(e: Event)
    ensures External(e) <==>
            !(e.ContextLoaded? || e.VerdictGiven? || e.Cancelled? || e.ContinuationPersisted? || e.TracePersisted?)
  {
  }

  /** What is read back: nothing and a damaged file leave the session as it is new, a valid state is
      normalised, and an unreadable or damaged file ends the body. */
  lemma RestoreReads(s: System, i: nat, readable: bool)
    requires SingleWorker(s) && Enabled(s, Restore(i, readable))
    ensures var t := DoRestore(s, i, readable);
            var good := readable && s.disk.Stored? && IsValidState(s.disk.state);
            && t.queue == s.queue && t.disk == s.disk && t.log == s.log
            && t.state == (if good then NormalizeRestored(s.disk.state) else s.state)
            && t.bodies == if good || (readable && s.disk.Missing?) || s.queue != [] then [AtLoop] else []
  {
    LeaveShape(s, i);
  }

  /** The record and the state are written one after the other; a failing write ends the body, and the next
      one goes on with what waits. */
  lemma WritesInTurn(s: System, i: nat, written: bool)
    requires SingleWorker(s)
    ensures Enabled(s, Append(i, written)) ==>
              var b, t := s.bodies[i], DoAppend(s, i, written);
              var r := Record(s.epoch, b.entry.event, b.previous, b.result.state, b.outcomes, false);
              && t.log == (if written then s.log + [r] else s.log) && t.disk == s.disk && t.state == s.state
              && t.bodies == if written then [Persisting] else if s.queue != [] then [AtLoop] else []
    ensures Enabled(s, Persist(i, written)) ==>
              var t := DoPersist(s, i, written);
              && t.disk == (if written then Stored(s.state) else s.disk) && t.state == s.state
              && t.bodies == if written || s.queue != [] then [AtLoop] else []
  {
    if i < |s.bodies| {
      LeaveShape(s, i);
    }
  }

  // ---------------------------------------------------------------- nothing is left hanging

  /** A classification or a continuation is under way. */
  predicate Working(phase: Phase) {
    phase == Classifying || phase == Continuing
  }

  /** The event ends the work of the phase. */
  predicate Resolves(e: Event, phase: Phase) {
    || e.EffectError?
    || (phase == Classifying && e.VerdictGiven?)
    || (phase == Continuing && e.ContinuationPersisted?)
  }

  /** The effect does the work of the phase. */
  predicate Does(f: Effect, phase: Phase) {
    (phase == Classifying && f.Classify?) || (phase == Continuing && f.SendContinuation?)
  }

  /** An event that ends the work of its phase, or finds none, starts work only as its last effect. */
  lemma WorkIsTheLastEffect(s: State, e: Event)
    requires Working(s.phase) ==> Resolves(e, s.phase)
    ensures var r := Next(s, e);
            && r.effects != []
            && (Working(r.state.phase) ==> Does(r.effects[|r.effects| - 1], r.state.phase))
  {
    PhaseStep(s, e);
  }

  /** Work is in the effects still to end, last of all, or the event that ends it stands first. */
  predicate Resolvable(s: System) {
    && s.bodies != []
    && if s.bodies[0].Performing? then
         var b := s.bodies[0];
         |b.outcomes| < |b.result.effects| && Does(b.result.effects[|b.result.effects| - 1], s.state.phase)
       else s.queue != [] && Resolves(s.queue[0].event, s.state.phase)
  }

  predicate Resolving(s: System) {
    && SingleWorker(s)
    && (!Live(s) ==> s.state.phase == Idle)
    && (Working(s.state.phase) ==> Resolvable(s))
  }

  lemma ResolvingLoop(s: System, i: nat)
    requires Resolving(s) && Enabled(s, Loop(i))
    ensures Resolving(DoLoop(s, i))
  {
    SingleWorkerStep(s, Loop(i));
    if s.queue == [] {
      LeaveShape(s, i);
    } else {
      TakenWithContext(s, i);
      WorkIsTheLastEffect(s.state, s.queue[0].event);
    }
  }

  lemma ResolvingPerform(s: System, i: nat, answer: Answer)
    requires Resolving(s) && Enabled(s, Perform(i, answer))
    ensures Resolving(DoPerform(s, i, answer))
  {
    SingleWorkerStep(s, Perform(i, answer));
    OutcomesAreNoted(s, i, answer);
    PerformShape(s, i, answer);
    if Working(s.state.phase) {
      if answer == Fails {
        FailureGoesFirst(s, i);
      } else {
        AnswerGoesFirst(s, i, answer);
      }
    }
  }

  lemma ResolvingStays(s: System, t: System)
    requires Resolving(s) && SingleWorker(t) && Live(t) && t.state == s.state
    requires s.bodies != [] && !s.bodies[0].Performing?
    requires t.queue == s.queue && (t.bodies == [] ==> t.queue == []) && (t.bodies != [] ==> !t.bodies[0].Performing?)
    ensures Resolving(t)
  {
  }

  lemma ResolvingWrite(s: System, i: nat, written: bool)
    requires Resolving(s)
    ensures Enabled(s, Append(i, written)) ==> Resolving(DoAppend(s, i, written))
    ensures Enabled(s, Persist(i, written)) ==> Resolving(DoPersist(s, i, written))
  {
    if Enabled(s, Append(i, written)) {
      SingleWorkerStep(s, Append(i, written));
      WriteQueue(s, i, written);
      ResolvingStays(s, DoAppend(s, i, written));
    }
    if Enabled(s, Persist(i, written)) {
      SingleWorkerStep(s, Persist(i, written));
      WriteQueue(s, i, written);
      ResolvingStays(s, DoPersist(s, i, written));
    }
  }

  lemma WriteQueue(s: System, i: nat, written: bool)
    requires SingleWorker(s)
    ensures forall t ::
              (Enabled(s, Append(i, written)) && t == DoAppend(s, i, written))
              || (Enabled(s, Persist(i, written)) && t == DoPersist(s, i, written)) ==>
                && t.queue == s.queue && t.state == s.state && Live(t)
                && (t.bodies == [] ==> t.queue == []) && (t.bodies != [] ==> !t.bodies[0].Performing?)
  {
    if i < |s.bodies| {
      LeaveShape(s, i);
    }
  }

  lemma ResolvingArrive(s: System, e: Event)
    requires Resolving(s) && External(e)
    ensures Resolving(DoArrive(s, e))
  {
    SingleWorkerStep(s, Arrive(e));
    ArrivalBringsContext(s, e);
    ArriveShape(s, e);
    if s.queue != [] {
      assert DoArrive(s, e).queue[0] == s.queue[0];
    }
  }

  lemma ResolvingRestore(s: System, i: nat, readable: bool)
    requires Resolving(s) && Enabled(s, Restore(i, readable))
    ensures Resolving(DoRestore(s, i, readable))
  {
    SingleWorkerStep(s, Restore(i, readable));
    RestoreReads(s, i, readable);
  }

  lemma ResolvingStep(s: System, step: Step)
    requires Resolving(s) && Enabled(s, step)
    ensures Resolving(Apply(s, step))
  {
    match step
    case Loop(i) => ResolvingLoop(s, i);
    case Perform(i, answer) => ResolvingPerform(s, i, answer);
    case Append(i, written) => ResolvingWrite(s, i, written);
    case Persist(i, written) => ResolvingWrite(s, i, written);
    case Arrive(e) => ResolvingArrive(s, e);
    case Restore(i, readable) => ResolvingRestore(s, i, readable);
    case CrashNow =>
  }

  lemma {:induction false} ResolvingAlways(s: System, steps: seq<Step>)
    requires Resolving(s) && Possible(s, steps)
    ensures Resolving(After(s, steps))
    decreases steps
  {
    if steps != [] {
      ResolvingStep(s, steps[0]);
      ResolvingAlways(Apply(s, steps[0]), steps[1..]);
    }
  }

  /** In any run, with any failures and crashes: when the drain has nothing left to do, no classification and
      no continuation is under way. */
  lemma NothingHangs(disk: Snapshot, steps: seq<Step>)
    requires Possible(Fresh(disk), steps)
    requires forall step | Internal(step) :: !Enabled(After(Fresh(disk), steps), step)
    ensures !Working(After(Fresh(disk), steps).state.phase)
  {
    ResolvingAlways(Fresh(disk), steps);
    DrainEmptiesTheQueue(Fresh(disk), steps);
  }
}
