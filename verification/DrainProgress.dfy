/** The drain ends: a weight on queued events and on the body in progress falls at every internal step
    (workspace/moderator/src/adapter.ts, workspace/moderator/src/fsm.ts). */
module DrainProgress {
  import opened Base
  import opened Fsm
  import opened FsmRuns
  import opened Drain

  /** The weight of an event covers every step that handling it and its follow-ups can take. */
  function Weight(e: Event): nat {
    match e
    case TurnEnded(_) => 33
    case ContextLoaded(_, _) => 28
    case Replay(_) => 28
    case VerdictGiven(_, _) => 22
    case ContinuationPersisted => 10
    case _ => 5
  }

  /** One step for the effect itself, and the heaviest event it can put in front of the queue. */
  function EffectWeight(f: Effect): nat {
    match f
    case LoadContext => 29
    case Classify => 23
    case SendContinuation(_) => 11
    case WriteTrace(_) => 6
    case VerifyPrompt => 6
    case _ => 1
  }

  function EffectsWeight(effects: seq<Effect>): nat {
    if effects == [] then 0 else EffectWeight(effects[0]) + EffectsWeight(effects[1..])
  }

  function QueueWeight(queue: seq<Entry>): nat {
    if queue == [] then 0 else Weight(queue[0].event) + QueueWeight(queue[1..])
  }

  function BodyWeight(b: Body): nat {
    match b
    case Restoring => 2
    case AtLoop => 1
    case Performing(_, _, result, outcomes, _) =>
      3 + if |outcomes| <= |result.effects| then EffectsWeight(result.effects[|outcomes|..]) else 0
    case Appending(_, _, _, _) => 3
    case Persisting => 2
  }

  function Measure(s: System): nat {
    QueueWeight(s.queue) + if s.bodies == [] then 0 else BodyWeight(s.bodies[0])
  }

  /** The weight of at most four effects, written out. */
  function WeightOfFew(effects: seq<Effect>): nat
    requires 1 <= |effects| <= 4
  {
    EffectWeight(effects[0])
    + (if 1 < |effects| then EffectWeight(effects[1]) else 0)
    + (if 2 < |effects| then EffectWeight(effects[2]) else 0)
    + (if 3 < |effects| then EffectWeight(effects[3]) else 0)
  }

  lemma WeightUnrolls(effects: seq<Effect>)
    requires 1 <= |effects| <= 4
    ensures EffectsWeight(effects) == WeightOfFew(effects)
  {
    assert effects[1..] == [] || effects[1..][1..] == effects[2..];
    assert |effects| <= 2 || effects[2..][1..] == effects[3..];
    assert |effects| <= 3 || effects[3..][1..] == [];
  }

  lemma FewEffects(s: State, e: Event)
    ensures 1 <= |Next(s, e).effects| <= 4
    ensures 3 + WeightOfFew(Next(s, e).effects) <= Weight(e)
  {
  }

  /** Handling an event costs less than its weight, whatever its effects turn into. */
  lemma EventsOutweighTheirEffects(s: State, e: Event)
    ensures 3 + EffectsWeight(Next(s, e).effects) <= Weight(e)
  {
    FewEffects(s, e);
    WeightUnrolls(Next(s, e).effects);
  }

  lemma FollowUpsWeighLess(f: Effect, answer: Answer, captured: Option<TurnFact>, s: State)
    requires Fits(f, answer, captured, s)
    ensures var e := FollowUpOf(f, answer, captured);
            e.Some? ==> Weight(e.value) < EffectWeight(f)
  {
  }

  /** A step of the drain itself: not an arrival from outside and not a crash. */
  predicate Internal(step: Step) {
    !step.Arrive? && !step.CrashNow?
  }

  lemma PerformFalls(s: System, i: nat, answer: Answer)
    requires SingleWorker(s) && Enabled(s, Perform(i, answer))
    ensures Measure(DoPerform(s, i, answer)) < Measure(s)
  {
    var b := s.bodies[i];
    var n := |b.outcomes|;
    var f := b.result.effects[n];
    FollowUpsWeighLess(f, answer, b.captured, s.state);
    assert b.result.effects[n..][1..] == b.result.effects[n + 1..];
    var t := DoPerform(s, i, answer);
    var e := FollowUpOf(f, answer, b.captured);
    assert QueueWeight(t.queue) == QueueWeight(s.queue) + (if e.Some? then Weight(e.value) else 0) by {
      if e.Some? {
        assert t.queue[1..] == s.queue;
      }
    }
  }

  lemma LoopFalls(s: System, i: nat)
    requires SingleWorker(s) && Enabled(s, Loop(i))
    ensures Measure(DoLoop(s, i)) < Measure(s)
  {
    if s.queue != [] {
      var e := s.queue[0].event;
      EventsOutweighTheirEffects(s.state, e);
      var effects := Next(s.state, e).effects;
      assert effects[0..] == effects;
    }
  }

  lemma MeasureFalls(s: System, step: Step)
    requires SingleWorker(s) && Enabled(s, step) && Internal(step)
    ensures Measure(Apply(s, step)) < Measure(s)
  {
    match step
    case Loop(i) => LoopFalls(s, i);
    case Perform(i, answer) => PerformFalls(s, i, answer);
    case _ =>
  }

  /** Without arrivals the drain takes at most `Measure(s)` steps, whichever effects, reads and writes
      fail on the way. */
  lemma {:induction false} DrainTerminates(s: System, steps: seq<Step>)
    requires SingleWorker(s) && Possible(s, steps)
    requires forall step <- steps :: Internal(step)
    ensures |steps| + Measure(After(s, steps)) <= Measure(s)
    decreases steps
  {
    if steps != [] {
      MeasureFalls(s, steps[0]);
      SingleWorkerStep(s, steps[0]);
      DrainTerminates(Apply(s, steps[0]), steps[1..]);
    }
  }

  /** The step that a suspended body can take when everything it waits for fails. */
  function SomeStep(b: Body): Step {
    match b
    case Restoring => Restore(0, false)
    case AtLoop => Loop(0)
    case Performing(_, _, result, outcomes, _) =>
      if |outcomes| < |result.effects|
         && (result.effects[|outcomes|].WriteDecision? || result.effects[|outcomes|].ShowToast?) then
        Perform(0, Succeeds)
      else Perform(0, Fails)
    case Appending(_, _, _, _) => Append(0, false)
    case Persisting => Persist(0, false)
  }

  /** A body is never past its effects while it still performs them. */
  predicate EffectsLeft(s: System) {
    forall b <- s.bodies :: b.Performing? ==> |b.outcomes| < |b.result.effects|
  }

  lemma EffectsLeftStep(s: System, step: Step)
    requires SingleWorker(s) && EffectsLeft(s) && Enabled(s, step)
    ensures EffectsLeft(Apply(s, step))
  {
    SingleWorkerStep(s, step);
    var t := Apply(s, step);
    if t.bodies != [] {
      assert t.bodies == [t.bodies[0]];
    }
  }

  lemma {:induction false} EffectsLeftAlways(s: System, steps: seq<Step>)
    requires SingleWorker(s) && EffectsLeft(s) && Possible(s, steps)
    ensures EffectsLeft(After(s, steps))
    decreases steps
  {
    if steps != [] {
      EffectsLeftStep(s, steps[0]);
      SingleWorkerStep(s, steps[0]);
      EffectsLeftAlways(Apply(s, steps[0]), steps[1..]);
    }
  }

  /** A suspended body can always go on, so a run that cannot has emptied the queue. */
  lemma DrainEmptiesTheQueue(s: System, steps: seq<Step>)
    requires SingleWorker(s) && EffectsLeft(s) && Possible(s, steps)
    ensures var t := After(s, steps);
            (forall step | Internal(step) :: !Enabled(t, step)) <==> (t.queue == [] && t.bodies == [])
  {
    SingleWorkerAlways(s, steps);
    EffectsLeftAlways(s, steps);
    var t := After(s, steps);
    if t.bodies != [] {
      assert t.bodies[0] in t.bodies;
      assert Enabled(t, SomeStep(t.bodies[0]));
    }
  }
}
