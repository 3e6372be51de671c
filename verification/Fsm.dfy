/** The moderation finite-state machine (workspace/moderator/src/fsm.ts). */
module Fsm {
  import opened Base

  type Id = string

  datatype Phase = Idle | Observing | Classifying | Continuing | Errored

  datatype BlockerSource = OperatorHandoff | AgentBlocked

  datatype Blocker = Blocker(source: BlockerSource, originUserID: Option<Id>)

  datatype AgentMode = Build | Answer

  datatype ContextFact = ContextFact(
    assistantID: Id, userMessageID: Option<Id>, agentMode: AgentMode, todosOpen: int)

  datatype State = State(
    phase: Phase,
    inflightAssistantID: Option<Id>,
    lastTerminalAssistantID: Option<Id>,
    realUserCycleID: Option<Id>,
    consecutiveNoProgressCount: int,
    blocker: Option<Blocker>,
    compactionActive: bool,
    pendingContext: Option<ContextFact>)

  datatype TurnFact = TurnFact(
    assistantID: Option<Id>,
    userMessageID: Option<Id>,
    agentMode: AgentMode,
    todosOpen: int,
    terminal: bool,
    duplicate: bool,
    compaction: bool,
    assistantError: bool,
    userNewer: bool,
    moderatorTrace: bool,
    planMode: bool,
    rootBlocked: bool,
    blockerDiscussion: bool,
    newCycle: bool)

  datatype Verdict = Complete | GoesOn | Stalled | Blocked | Stopped

  datatype Event =
    | StatusBusy
    | TurnEnded(turn: TurnFact)
    | ContextLoaded(turn: TurnFact, originUserID: Option<Id>)
    | VerdictGiven(verdict: Verdict, originUserID: Option<Id>)
    | Cancelled
    | ContinuationPersisted
    | NewUserCycle(originUserID: Option<Id>, sameBranch: bool)
    | CompactionStarted
    | CompactionCompleted
    | TracePersisted
    | EffectError
    | Replay(turn: TurnFact)

  datatype DecisionType =
    | StatusBusyNoted | Checking | ModerationComplete | ModerationAgentBlocked | ModerationUserStop
    | ModerationEscalated | ModerationContinue | ModerationError | RootHandoff | BlockerDiscussed
    | IgnoredOutsidePhase | IgnoredNonterminal | IgnoredAssistantError | IgnoredPlanMode
    | IgnoredCompaction | IgnoredNewerUser | IgnoredModeratorTrace | IgnoredDuplicate
    | CancelledNoted | NewUserCycleNoted | TraceRecorded | ContinuationNoted
    | CompactionStartNoted | CompactionEndNoted

  datatype ToastKind =
    CheckingToast | CompleteToast | BlockedToast | UserStopToast | HandoffToast
    | ContinuingToast | EscalatedToast | ErrorToast

  datatype Effect =
    | LoadContext
    | Classify
    | WriteTrace(verdict: Option<Verdict>)
    | SendContinuation(answered: Verdict)
    | VerifyPrompt
    | ShowToast(kind: ToastKind)
    | WriteDecision(decision: DecisionType)

  datatype TransitionResult = TransitionResult(
    state: State, effects: seq<Effect>, ignored: bool, previousPhase: Phase, nextPhase: Phase)

  datatype StateError = InvalidState

  const ESCALATION_LIMIT := 3

  const INITIAL := State(Idle, None, None, None, 0, None, false, None)

  /** The part of `isValidState` that the types of `State` leave open. */
  predicate IsValidState(s: State) {
    s.consecutiveNoProgressCount >= 0
  }

  function NormalizeRestored(s: State): State {
    State(
      Idle,
      None,
      if s.phase == Classifying then None else s.lastTerminalAssistantID,
      s.realUserCycleID,
      s.consecutiveNoProgressCount,
      s.blocker,
      false,
      None)
  }

  predicate Accepts(e: Event, phase: Phase) {
    match e
    case TurnEnded(_) => phase == Observing
    case ContextLoaded(_, _) => phase == Observing
    case VerdictGiven(_, _) => phase == Classifying
    case Cancelled => phase == Classifying || phase == Continuing
    case ContinuationPersisted => phase == Continuing
    case Replay(_) => phase == Idle || phase == Errored
    case _ => true
  }

  /** The first row of the eligibility table that matches the turn. */
  function EligibilitySkip(turn: TurnFact): Option<DecisionType> {
    if !turn.terminal then Some(IgnoredNonterminal)
    else if turn.assistantError then Some(IgnoredAssistantError)
    else if turn.planMode then Some(IgnoredPlanMode)
    else if turn.compaction then Some(IgnoredCompaction)
    else if turn.userNewer then Some(IgnoredNewerUser)
    else if turn.moderatorTrace then Some(IgnoredModeratorTrace)
    else if turn.duplicate then Some(IgnoredDuplicate)
    else None
  }

  function Transition(s: State, e: Event): Result<TransitionResult, StateError> {
    if IsValidState(s) then Ok(Next(s, e)) else Err(InvalidState)
  }

  /** `transition` on a state whose shape is valid. */
  function Next(s: State, e: Event): TransitionResult {
    if !Accepts(e, s.phase) then
      TransitionResult(s, [WriteDecision(IgnoredOutsidePhase)], true, s.phase, s.phase)
    else
      var r := Dispatch(s, e);
      TransitionResult(r.state, r.effects, r.ignored, s.phase, r.state.phase)
  }

  function Moved(s: State, effects: seq<Effect>): TransitionResult {
    TransitionResult(s, effects, false, s.phase, s.phase)
  }

  function Skipped(s: State, skip: DecisionType): TransitionResult {
    TransitionResult(s, [WriteDecision(skip)], true, s.phase, s.phase)
  }

  function Dispatch(s: State, e: Event): TransitionResult {
    match e
    case StatusBusy => Moved(s.(phase := Observing), [WriteDecision(StatusBusyNoted)])
    case TurnEnded(turn) => OnTurnEnded(s, turn)
    case ContextLoaded(turn, origin) => OnContextLoaded(s, turn, origin)
    case VerdictGiven(verdict, origin) => OnVerdict(s, verdict, origin)
    case Cancelled =>
      Moved(s.(phase := Idle, inflightAssistantID := None), [WriteDecision(CancelledNoted)])
    case ContinuationPersisted =>
      Moved(s.(phase := Observing), [VerifyPrompt, WriteDecision(ContinuationNoted)])
    case NewUserCycle(origin, sameBranch) => OnNewUserCycle(s, origin, sameBranch)
    case CompactionStarted =>
      Moved(s.(compactionActive := true), [WriteDecision(CompactionStartNoted)])
    case CompactionCompleted =>
      Moved(s.(compactionActive := false), [WriteDecision(CompactionEndNoted)])
    case TracePersisted => Moved(s, [WriteDecision(TraceRecorded)])
    case EffectError =>
      Moved(
        s.(phase := Errored,
        inflightAssistantID := None,
        lastTerminalAssistantID :=
          if s.lastTerminalAssistantID == s.inflightAssistantID then None
          else s.lastTerminalAssistantID),
        [WriteDecision(ModerationError), ShowToast(ErrorToast)])
    case Replay(turn) => OnReplay(s, turn)
  }

  function ContextOf(turn: TurnFact): Option<ContextFact> {
    if turn.assistantID.None? then None
    else Some(ContextFact(turn.assistantID.value, turn.userMessageID, turn.agentMode, turn.todosOpen))
  }

  function OnReplay(s: State, turn: TurnFact): TransitionResult {
    var skip := EligibilitySkip(turn);
    if turn.assistantID.None? || skip.Some? then
      Skipped(
        s.(phase := Idle, pendingContext := None),
        if skip.Some? then skip.value else IgnoredNonterminal)
    else
      Moved(
        s.(phase := Classifying,
        inflightAssistantID := turn.assistantID,
        pendingContext := ContextOf(turn)),
        [WriteDecision(Checking), ShowToast(CheckingToast), Classify])
  }

  function OnTurnEnded(s: State, turn: TurnFact): TransitionResult {
    Moved(
      s.(phase := Observing,
      inflightAssistantID := turn.assistantID,
      pendingContext := ContextOf(turn)),
      [LoadContext, WriteDecision(StatusBusyNoted)])
  }

  function OnContextLoaded(s: State, turn: TurnFact, origin: Option<Id>): TransitionResult {
    var next := WithContext(s, turn, origin).(pendingContext := None);
    var skip := EligibilitySkip(turn);
    if skip.Some? then
      Skipped(next.(phase := Idle), skip.value)
    else if turn.rootBlocked then
      Moved(
        next.(phase := Idle, blocker := Some(Blocker(OperatorHandoff, origin.Or(next.realUserCycleID)))),
        [WriteDecision(RootHandoff), WriteTrace(None), ShowToast(HandoffToast)])
    else if turn.blockerDiscussion then
      Moved(next.(phase := Idle), [WriteDecision(BlockerDiscussed)])
    else
      Moved(next.(phase := Classifying), [WriteDecision(Checking), ShowToast(CheckingToast), Classify])
  }

  function OnVerdict(s: State, verdict: Verdict, origin: Option<Id>): TransitionResult {
    var terminal := TerminalState(s);
    var completion :=
      Moved(terminal, [WriteDecision(ModerationComplete), WriteTrace(Some(verdict)), ShowToast(CompleteToast)]);
    var escalation := [WriteDecision(ModerationEscalated), ShowToast(EscalatedToast)];
    if verdict == Complete then
      completion
    else if verdict == Blocked then
      Moved(
        terminal.(blocker := Some(Blocker(AgentBlocked, origin.Or(s.realUserCycleID)))),
        [WriteDecision(ModerationAgentBlocked), WriteTrace(Some(verdict)), ShowToast(BlockedToast)])
    else if verdict == Stopped then
      Moved(terminal, [WriteDecision(ModerationUserStop), ShowToast(UserStopToast)])
    else if s.blocker.Some? then
      completion
    else if s.phase == Classifying && s.consecutiveNoProgressCount >= ESCALATION_LIMIT then
      Moved(terminal, escalation)
    else
      var count := s.consecutiveNoProgressCount + if verdict == Stalled then 1 else 0;
      if count >= ESCALATION_LIMIT then
        Moved(
          s.(phase := Idle, consecutiveNoProgressCount := count, inflightAssistantID := None),
          escalation)
      else
        Moved(
          s.(phase := Continuing, consecutiveNoProgressCount := count),
          [WriteDecision(ModerationContinue), WriteTrace(Some(verdict)), ShowToast(ContinuingToast),
           SendContinuation(verdict)])
  }

  function OnNewUserCycle(s: State, origin: Option<Id>, sameBranch: bool): TransitionResult {
    Moved(
      s.(phase := if s.phase == Classifying || s.phase == Continuing then Idle else s.phase,
      inflightAssistantID := None,
      realUserCycleID := origin.Or(s.realUserCycleID),
      consecutiveNoProgressCount := 0,
      blocker := if sameBranch then s.blocker else None,
      pendingContext := None),
      [WriteDecision(NewUserCycleNoted)])
  }

  function WithContext(s: State, turn: TurnFact, origin: Option<Id>): State {
    s.(inflightAssistantID := turn.assistantID.Or(s.inflightAssistantID),
    realUserCycleID := origin.Or(s.realUserCycleID),
    consecutiveNoProgressCount := if turn.newCycle then 0 else s.consecutiveNoProgressCount,
    blocker := if turn.newCycle && !turn.blockerDiscussion then None else s.blocker)
  }

  function TerminalState(s: State): State {
    s.(phase := Idle,
    inflightAssistantID := None,
    lastTerminalAssistantID := s.inflightAssistantID.Or(s.lastTerminalAssistantID),
    blocker := None,
    consecutiveNoProgressCount := 0,
    compactionActive := false,
    pendingContext := None)
  }

  // ---------------------------------------------------------------- properties of one transition

  /** A turn that passes every eligibility rule. */
  predicate Eligible(turn: TurnFact) {
    && turn.terminal
    && !turn.assistantError && !turn.planMode && !turn.compaction
    && !turn.userNewer && !turn.moderatorTrace && !turn.duplicate
  }

  /** Validity is kept, so a machine started on a valid state never rejects one. */
  lemma ValidityIsKept(s: State, e: Event)
    requires IsValidState(s)
    ensures Transition(s, e).Ok? && IsValidState(Transition(s, e).value.state)
    ensures IsValidState(NormalizeRestored(s))
  {
    assert IsValidState(Next(s, e).state) by {
      match e case _ =>
    }
  }

  /** A classification starts exactly for an eligible turn in an accepting phase, and starting one is
      exactly how the machine enters the classifying phase. */
  lemma ClassificationStarts(s: State, e: Event)
    ensures Classify in Next(s, e).effects <==>
            || (e.ContextLoaded? && s.phase == Observing && Eligible(e.turn)
                && !e.turn.rootBlocked && !e.turn.blockerDiscussion)
            || (e.Replay? && (s.phase == Idle || s.phase == Errored) && Eligible(e.turn)
                && e.turn.assistantID.Some?)
    ensures Classify in Next(s, e).effects <==>
            s.phase != Classifying && Next(s, e).state.phase == Classifying
  {
    match e case _ =>
  }

  /** Restoring after a crash forgets all work in progress, lets an unfinished classification be
      tried again, keeps the cycle, the blocker and the stall count, and is idempotent. */
  lemma RestoreForgetsOnlyProgress(s: State)
    ensures var r := NormalizeRestored(s);
            && NormalizeRestored(r) == r
            && (IsValidState(r) <==> IsValidState(s))
            && r.phase == Idle && r.inflightAssistantID == None && r.pendingContext == None
            && !r.compactionActive
            && r.consecutiveNoProgressCount == s.consecutiveNoProgressCount
            && r.blocker == s.blocker
            && r.realUserCycleID == s.realUserCycleID
            && (r.lastTerminalAssistantID == s.lastTerminalAssistantID
                || (s.phase == Classifying && r.lastTerminalAssistantID == None))
  {
  }
}
