/** Whole runs of the moderation machine, crashes included (workspace/moderator/src/fsm.ts). */
module FsmRuns {
  import opened Base
  import opened Fsm

  /** A run as the machine sees it: the events it was given, and the restores that normalised its state.
      What a crash of the session loses is not part of it; the module DrainLoss accounts for that. */
  datatype Happening = Happened(event: Event) | Crash

  type Run = seq<Happening>

  function Exec(run: Run): State {
    if run == [] then INITIAL
    else
      var before := Exec(run[..|run| - 1]);
      match run[|run| - 1]
      case Happened(e) => Next(before, e).state
      case Crash => NormalizeRestored(before)
  }

  /** Sums a per-event figure, taken in the state that met the event, over a run. */
  ghost function Total(run: Run, figure: (State, Event) -> nat): nat {
    if run == [] then 0
    else
      var init := run[..|run| - 1];
      var last := run[|run| - 1];
      Total(init, figure) + if last.Happened? then figure(Exec(init), last.event) else 0
  }

  // ---------------------------------------------------------------- the stall counter

  /** A stalled verdict that the machine accepts with no blocker standing. */
  predicate UnblockedStall(s: State, e: Event) {
    e.VerdictGiven? && s.phase == Classifying && e.verdict == Stalled && s.blocker == None
  }

  /** The events that restart the count after `stalls` stalled verdicts: a new user cycle, a terminal
      verdict, a verdict under a blocker, or any verdict once the limit has been reached. */
  predicate RestartsCount(s: State, e: Event, stalls: int) {
    || e.NewUserCycle?
    || (e.ContextLoaded? && s.phase == Observing && e.turn.newCycle)
    || (e.VerdictGiven? && s.phase == Classifying
        && (e.verdict in {Complete, Blocked, Stopped} || s.blocker.Some? || stalls >= ESCALATION_LIMIT))
  }

  /** How many stalled verdicts were accepted since the last restart. The counter of the machine
      plays no part in this definition. */
  function Stalls(run: Run): nat {
    if run == [] then 0
    else
      var init := run[..|run| - 1];
      var last := run[|run| - 1];
      if last.Crash? then Stalls(init)
      else if RestartsCount(Exec(init), last.event, Stalls(init)) then 0
      else if UnblockedStall(Exec(init), last.event) then Stalls(init) + 1
      else Stalls(init)
  }

  predicate Sends(s: State, e: Event) {
    exists v :: SendContinuation(v) in Next(s, e).effects
  }

  /** How many continuations answered a stalled verdict since the last restart. */
  ghost function StallContinuations(run: Run): nat {
    if run == [] then 0
    else
      var init := run[..|run| - 1];
      var last := run[|run| - 1];
      if last.Crash? then StallContinuations(init)
      else if RestartsCount(Exec(init), last.event, Stalls(init)) then 0
      else if UnblockedStall(Exec(init), last.event) && Sends(Exec(init), last.event) then
        StallContinuations(init) + 1
      else StallContinuations(init)
  }

  /** One event moves the counter as the definition of `Stalls` moves. */
  lemma StallCountStep(s: State, e: Event)
    requires 0 <= s.consecutiveNoProgressCount <= ESCALATION_LIMIT
    ensures Next(s, e).state.consecutiveNoProgressCount ==
            if RestartsCount(s, e, s.consecutiveNoProgressCount) then 0
            else if UnblockedStall(s, e) then s.consecutiveNoProgressCount + 1
            else s.consecutiveNoProgressCount
    ensures Next(s, e).state.consecutiveNoProgressCount <= ESCALATION_LIMIT
  {
  }

  lemma {:induction false} StallCountIsExact(run: Run)
    ensures Exec(run).consecutiveNoProgressCount == Stalls(run) <= ESCALATION_LIMIT
    ensures IsValidState(Exec(run))
  {
    if run != [] {
      var init := run[..|run| - 1];
      StallCountIsExact(init);
      if run[|run| - 1].Happened? {
        StallCountStep(Exec(init), run[|run| - 1].event);
      }
    }
  }

  lemma SendsExactly(s: State, e: Event)
    ensures Sends(s, e) <==>
            && e.VerdictGiven? && s.phase == Classifying
            && e.verdict in {GoesOn, Stalled} && s.blocker == None
            && s.consecutiveNoProgressCount + (if e.verdict == Stalled then 1 else 0) < ESCALATION_LIMIT
  {
    if e.VerdictGiven? && Accepts(e, s.phase) {
      var effects := Next(s, e).effects;
      assert Sends(s, e) <==> |effects| == 4 by {
        if |effects| == 4 {
          assert effects[3] == SendContinuation(e.verdict);
        }
      }
    }
  }

  /** Between two restarts at most two continuations answer stalled verdicts. */
  lemma {:induction false} StalledContinuationsAreBounded(run: Run)
    ensures StallContinuations(run) == if Stalls(run) < ESCALATION_LIMIT then Stalls(run) else 2
  {
    if run != [] {
      var init := run[..|run| - 1];
      StalledContinuationsAreBounded(init);
      StallCountIsExact(init);
      if run[|run| - 1].Happened? {
        SendsExactly(Exec(init), run[|run| - 1].event);
      }
    }
  }

  /** The stalled verdict that brings the count to the limit escalates and sends nothing; so does
      every verdict that would continue once the limit has been reached. */
  lemma LimitEscalates(run: Run, e: Event)
    requires e.VerdictGiven? && Exec(run).phase == Classifying && Exec(run).blocker == None
    requires e.verdict in {GoesOn, Stalled}
    ensures Sends(Exec(run), e) <==>
            Stalls(run) + (if e.verdict == Stalled then 1 else 0) < ESCALATION_LIMIT
    ensures ShowToast(EscalatedToast) in Next(Exec(run), e).effects <==> !Sends(Exec(run), e)
    ensures Exec(run + [Happened(e)]).phase == if Sends(Exec(run), e) then Continuing else Idle
  {
    StallCountIsExact(run);
    SendsExactly(Exec(run), e);
    assert (run + [Happened(e)])[..|run|] == run;
  }

  // ---------------------------------------------------------------- reachable states

  /** A terminal turn names its assistant message. */
  predicate Identified(e: Event) {
    e.TurnEnded? || e.ContextLoaded? || e.Replay? ==> e.turn.terminal ==> e.turn.assistantID.Some?
  }

  predicate AllIdentified(run: Run) {
    forall i :: 0 <= i < |run| && run[i].Happened? ==> Identified(run[i].event)
  }

  predicate PhaseInvariant(s: State) {
    && (s.phase == Continuing ==> s.blocker == None && s.consecutiveNoProgressCount < ESCALATION_LIMIT)
    && (s.phase == Classifying || s.phase == Continuing ==> s.inflightAssistantID.Some?)
    && (s.phase == Errored ==> s.inflightAssistantID == None)
  }

  lemma PhaseInvariantStep(s: State, e: Event)
    requires PhaseInvariant(s) && Identified(e)
    ensures PhaseInvariant(Next(s, e).state)
  {
    match e case _ =>
  }

  lemma {:induction false} PhaseInvariantHolds(run: Run)
    requires AllIdentified(run)
    ensures PhaseInvariant(Exec(run))
  {
    if run != [] {
      var init := run[..|run| - 1];
      PhaseInvariantHolds(init);
      if run[|run| - 1].Happened? {
        PhaseInvariantStep(Exec(init), run[|run| - 1].event);
      }
    }
  }

  /** The one way to lose the in-flight id: a step leaves the invariant exactly when a context without an
      id passes every check of the observing phase while no id is in flight. */
  lemma PhaseInvariantBreaksExactly(s: State, e: Event)
    requires PhaseInvariant(s)
    ensures !PhaseInvariant(Next(s, e).state) <==>
            && e.ContextLoaded? && s.phase == Observing && Eligible(e.turn)
            && !e.turn.rootBlocked && !e.turn.blockerDiscussion
            && e.turn.assistantID == None && s.inflightAssistantID == None
  {
    match e case _ =>
  }

  /** It happens: the session is busy, a turn ends without an id, and its context passes the checks. */
  lemma PhaseInvariantCanBreak()
    ensures var turn := TurnFact(None, None, Build, 0, true, false, false, false, false, false, false, false,
                                 false, false);
            var run := [Happened(StatusBusy), Happened(TurnEnded(turn)), Happened(ContextLoaded(turn, None))];
            && PhaseInvariant(Exec(run[..2])) && !PhaseInvariant(Exec(run))
            && Exec(run).phase == Classifying && Exec(run).inflightAssistantID == None
  {
    var turn := TurnFact(None, None, Build, 0, true, false, false, false, false, false, false, false, false, false);
    var run := [Happened(StatusBusy), Happened(TurnEnded(turn)), Happened(ContextLoaded(turn, None))];
    assert run[..1][..0] == [] && run[..2][..1] == run[..1] && run[..3] == run;
    assert Exec(run[..1]) == INITIAL.(phase := Observing);
    assert Exec(run[..2]) == INITIAL.(phase := Observing);
  }

  // ---------------------------------------------------------------- effect accounting

  function VerdictAccepted(s: State, e: Event): nat {
    if e.VerdictGiven? && s.phase == Classifying then 1 else 0
  }

  function PersistAccepted(s: State, e: Event): nat {
    if e.ContinuationPersisted? && s.phase == Continuing then 1 else 0
  }

  function Requests(effects: seq<Effect>, wanted: Effect -> bool): nat {
    if effects == [] then 0
    else (if wanted(effects[0]) then 1 else 0) + Requests(effects[1..], wanted)
  }

  function ClassifyRequests(s: State, e: Event): nat {
    Requests(Next(s, e).effects, (f: Effect) => f.Classify?)
  }

  function SendRequests(s: State, e: Event): nat {
    Requests(Next(s, e).effects, (f: Effect) => f.SendContinuation?)
  }

  /** A wanted effect that can only stand at place `k` is asked for at most once. */
  lemma {:induction false} RequestsAtOnePlace(effects: seq<Effect>, wanted: Effect -> bool, k: int)
    requires forall i :: 0 <= i < |effects| && wanted(effects[i]) ==> i == k
    ensures Requests(effects, wanted) == if 0 <= k < |effects| && wanted(effects[k]) then 1 else 0
  {
    if effects != [] {
      RequestsAtOnePlace(effects[1..], wanted, k - 1);
    }
  }

  /** Where a transition puts the two effects that start work outside. */
  lemma EffectPlaces(s: State, e: Event)
    ensures var r := Next(s, e);
            && (forall i :: 0 <= i < |r.effects| && r.effects[i].Classify? ==> i == 2)
            && (forall i :: 0 <= i < |r.effects| && r.effects[i].SendContinuation? ==> i == 3)
            && (2 < |r.effects| && r.effects[2].Classify? <==> s.phase != Classifying && r.state.phase == Classifying)
            && (3 < |r.effects| && r.effects[3].SendContinuation? <==>
                s.phase != Continuing && r.state.phase == Continuing)
            && (3 < |r.effects| ==> e.VerdictGiven? && s.phase == Classifying)
  {
  }

  /** What one transition asks for: a classification exactly on entering the classifying phase, a
      continuation exactly on entering the continuing phase. */
  lemma RequestsOfOneStep(s: State, e: Event)
    ensures ClassifyRequests(s, e) ==
            if s.phase != Classifying && Next(s, e).state.phase == Classifying then 1 else 0
    ensures SendRequests(s, e) ==
            if s.phase != Continuing && Next(s, e).state.phase == Continuing then 1 else 0
    ensures SendRequests(s, e) <= VerdictAccepted(s, e)
  {
    EffectPlaces(s, e);
    RequestsAtOnePlace(Next(s, e).effects, (f: Effect) => f.Classify?, 2);
    RequestsAtOnePlace(Next(s, e).effects, (f: Effect) => f.SendContinuation?, 3);
  }

  /** In every run each accepted verdict, and each classification still open, answers its own CLASSIFY
      effect; each persisted continuation, and each one still open, answers its own SEND_CONTINUATION;
      and no continuation is sent without a verdict. */
  lemma {:induction false} EffectAccounting(run: Run)
    ensures Total(run, VerdictAccepted) + (if Exec(run).phase == Classifying then 1 else 0)
            <= Total(run, ClassifyRequests)
    ensures Total(run, PersistAccepted) + (if Exec(run).phase == Continuing then 1 else 0)
            <= Total(run, SendRequests)
    ensures Total(run, SendRequests) <= Total(run, VerdictAccepted)
  {
    if run != [] {
      var init := run[..|run| - 1];
      var last := run[|run| - 1];
      EffectAccounting(init);
      if last.Happened? {
        RequestsOfOneStep(Exec(init), last.event);
        StepLeaves(Exec(init), last.event);
      }
    }
  }

  /** An accepted verdict leaves the classifying phase, an accepted persist leaves the continuing one. */
  lemma StepLeaves(s: State, e: Event)
    ensures VerdictAccepted(s, e) == 1 ==> Next(s, e).state.phase != Classifying
    ensures PersistAccepted(s, e) == 1 ==> Next(s, e).state.phase != Continuing
  {
    match e case _ =>
  }
}
