/** The event queue of one session and the worker that drains it, as the steps that run between two
    suspension points (workspace/moderator/src/adapter.ts). */
module Drain {
  import opened Base
  import opened Text
  import opened Fsm
  import opened FsmRuns

  /** Where a queued event came from. Outside events carry their arrival number. */
  datatype Origin = Outside(arrival: nat) | FollowUp

  datatype Entry = Entry(event: Event, origin: Origin)

  /** What reading the state file can yield. */
  datatype Snapshot = Missing | Malformed | Stored(state: State)

  /** One activation of the drain, by the await (or loop test) where it is suspended. `captured` is the
      loaded context as the effect in progress found it. */
  datatype Body =
    | Restoring
    | AtLoop
    | Performing(entry: Entry, previous: State, result: TransitionResult, outcomes: seq<bool>,
                 captured: Option<TurnFact>)
    | Appending(entry: Entry, previous: State, result: TransitionResult, outcomes: seq<bool>)
    | Persisting

  /** One line of the decision log. `saved` records that the state write after it succeeded. */
  datatype Record = Record(
    epoch: nat, event: Event, previous: State, snapshot: State, outcomes: seq<bool>, saved: bool)

  /** The live session, its files, and the history of the run. A crash starts a new epoch. */
  datatype System = System(
    state: State,
    queue: seq<Entry>,
    draining: bool,
    restored: bool,
    bodies: seq<Body>,
    context: Option<TurnFact>,
    disk: Snapshot,
    log: seq<Record>,
    epoch: nat,
    firstArrival: nat,
    arrivals: nat,
    processed: seq<Entry>,
    history: Run,
    savedHistory: Run)

  /** How a suspended effect ends. */
  datatype Answer = Fails | Succeeds | Loads(turn: TurnFact) | Judges(verdict: Verdict)

  datatype Step =
    | Arrive(event: Event)
    | Restore(body: nat, readable: bool)
    | Loop(body: nat)
    | Perform(body: nat, answer: Answer)
    | Append(body: nat, written: bool)
    | Persist(body: nat, written: bool)
    | CrashNow

  function Fresh(disk: Snapshot): System {
    System(INITIAL, [], false, false, [], None, disk, [], 0, 0, 0, [], [], [])
  }

  // ---------------------------------------------------------------- the step relation

  /** The events that the plugin hooks enqueue. */
  predicate External(e: Event) {
    || e.StatusBusy? || e.TurnEnded? || e.NewUserCycle? || e.EffectError? || e.Replay?
    || e.CompactionStarted? || e.CompactionCompleted?
  }

  /** What a context loaded in state `s` says about that state. */
  predicate ReadIn(turn: TurnFact, s: State) {
    && (turn.duplicate <==> turn.assistantID.Some? && turn.assistantID == s.lastTerminalAssistantID)
    && (turn.newCycle <==> turn.userMessageID.Some? && turn.userMessageID != s.realUserCycleID)
    && (turn.blockerDiscussion ==> s.blocker.Some?)
  }

  /** The ways an effect can end. Decisions and toasts cannot fail; a classification without a loaded
      context can only fail. */
  predicate Fits(f: Effect, answer: Answer, captured: Option<TurnFact>, s: State) {
    match f
    case WriteDecision(_) => answer == Succeeds
    case ShowToast(_) => answer == Succeeds
    case LoadContext => answer == Fails || (answer.Loads? && ReadIn(answer.turn, s))
    case Classify => answer == Fails || (answer.Judges? && captured.Some?)
    case _ => answer == Fails || answer == Succeeds
  }

  /** The event that an effect puts in front of the queue when it ends. */
  function FollowUpOf(f: Effect, answer: Answer, captured: Option<TurnFact>): Option<Event> {
    if answer == Fails then
      (if f.WriteDecision? then None else Some(EffectError))
    else match f
      case LoadContext =>
        if answer.Loads? then Some(ContextLoaded(answer.turn, answer.turn.userMessageID)) else None
      case Classify =>
        if answer.Judges? && captured.Some? then
          Some(VerdictGiven(answer.verdict, captured.value.userMessageID))
        else None
      case WriteTrace(_) => Some(TracePersisted)
      case SendContinuation(_) => Some(ContinuationPersisted)
      case _ => None
  }

  predicate Enabled(s: System, step: Step) {
    match step
    case Arrive(e) => External(e)
    case CrashNow => true
    case Restore(i, _) => i < |s.bodies| && s.bodies[i].Restoring?
    case Loop(i) => i < |s.bodies| && s.bodies[i].AtLoop?
    case Perform(i, answer) =>
      && i < |s.bodies| && s.bodies[i].Performing?
      && var b := s.bodies[i];
         && |b.outcomes| < |b.result.effects|
         && Fits(b.result.effects[|b.outcomes|], answer, b.captured, s.state)
    case Append(i, _) => i < |s.bodies| && s.bodies[i].Appending?
    case Persist(i, _) => i < |s.bodies| && s.bodies[i].Persisting?
  }

  /** Calling `drain`: nothing while a body runs, else a new body. */
  function Kick(s: System): System {
    if s.draining then s
    else
      s.(draining := true, restored := true,
      bodies := s.bodies + [if s.restored then AtLoop else Restoring])
  }

  /** The finally block of a body, reached by a normal end and by an exception alike. */
  function Leave(s: System, i: nat): System
    requires i < |s.bodies|
  {
    var t := s.(draining := false, bodies := s.bodies[..i] + s.bodies[i + 1..]);
    if t.queue == [] then t else Kick(t)
  }

  function EnqueueLast(s: System, e: Event): System {
    Kick(s.(queue := s.queue + [Entry(e, Outside(s.arrivals))], arrivals := s.arrivals + 1))
  }

  function EnqueueFirst(s: System, e: Event): System {
    Kick(s.(queue := [Entry(e, FollowUp)] + s.queue))
  }

  function DoArrive(s: System, e: Event): System {
    EnqueueLast(if e.Replay? then s.(context := Some(e.turn)) else s, e)
  }

  function DoRestore(s: System, i: nat, readable: bool): System
    requires Enabled(s, Restore(i, readable))
  {
    if !readable || s.disk.Malformed? || (s.disk.Stored? && !IsValidState(s.disk.state)) then
      Leave(s, i)
    else if s.disk.Missing? then
      s.(bodies := s.bodies[i := AtLoop])
    else
      s.(bodies := s.bodies[i := AtLoop],
      state := NormalizeRestored(s.disk.state),
      history := s.savedHistory + [Crash])
  }

  function DoLoop(s: System, i: nat): System
    requires Enabled(s, Loop(i))
  {
    if s.queue == [] then
      Leave(s, i)
    else
      var entry := s.queue[0];
      var shifted := s.(queue := s.queue[1..], processed := s.processed + [entry]);
      match Transition(s.state, entry.event)
      case Err(_) => Leave(shifted, i)
      case Ok(result) =>
        shifted.(state := result.state,
        bodies := s.bodies[i := Performing(entry, s.state, result, [], s.context)],
        history := s.history + [Happened(entry.event)])
  }

  /** The body after the effect in progress has ended. */
  function Advanced(b: Body, ok: bool, context: Option<TurnFact>): Body
    requires b.Performing?
  {
    var outcomes := b.outcomes + [ok];
    if |outcomes| < |b.result.effects| then
      Performing(b.entry, b.previous, b.result, outcomes, context)
    else
      Appending(b.entry, b.previous, b.result, outcomes)
  }

  function DoPerform(s: System, i: nat, answer: Answer): System
    requires Enabled(s, Perform(i, answer))
  {
    var b := s.bodies[i];
    var followup := FollowUpOf(b.result.effects[|b.outcomes|], answer, b.captured);
    var loaded := if answer.Loads? then s.(context := Some(answer.turn)) else s;
    var fed := if followup.Some? then EnqueueFirst(loaded, followup.value) else loaded;
    fed.(bodies := fed.bodies[i := Advanced(b, answer != Fails, loaded.context)])
  }

  function DoAppend(s: System, i: nat, written: bool): System
    requires Enabled(s, Append(i, written))
  {
    if !written then Leave(s, i)
    else
      var b := s.bodies[i];
      s.(log := s.log + [Record(s.epoch, b.entry.event, b.previous, b.result.state, b.outcomes, false)],
      bodies := s.bodies[i := Persisting])
  }

  function MarkSaved(log: seq<Record>): seq<Record> {
    if log == [] then log else log[|log| - 1 := log[|log| - 1].(saved := true)]
  }

  function DoPersist(s: System, i: nat, written: bool): System
    requires Enabled(s, Persist(i, written))
  {
    if !written then Leave(s, i)
    else
      s.(disk := Stored(s.state), savedHistory := s.history, log := MarkSaved(s.log),
      bodies := s.bodies[i := AtLoop])
  }

  /** The process dies: the files survive, the session object does not. */
  function DoCrash(s: System): System {
    System(INITIAL, [], false, false, [], None, s.disk, s.log, s.epoch + 1, s.arrivals, s.arrivals,
           [], [], s.savedHistory)
  }

  function Apply(s: System, step: Step): System
    requires Enabled(s, step)
  {
    match step
    case Arrive(e) => DoArrive(s, e)
    case Restore(i, readable) => DoRestore(s, i, readable)
    case Loop(i) => DoLoop(s, i)
    case Perform(i, answer) => DoPerform(s, i, answer)
    case Append(i, written) => DoAppend(s, i, written)
    case Persist(i, written) => DoPersist(s, i, written)
    case CrashNow => DoCrash(s)
  }

  /** The steps can be taken one after the other from `s`. */
  predicate Possible(s: System, steps: seq<Step>)
    decreases steps
  {
    steps == [] || (Enabled(s, steps[0]) && Possible(Apply(s, steps[0]), steps[1..]))
  }

  function After(s: System, steps: seq<Step>): System
    requires Possible(s, steps)
    decreases steps
  {
    if steps == [] then s else After(Apply(s, steps[0]), steps[1..])
  }

  lemma {:induction false} OneMoreStep(s: System, steps: seq<Step>, step: Step)
    requires Possible(s, steps) && Enabled(After(s, steps), step)
    ensures Possible(s, steps + [step])
    ensures After(s, steps + [step]) == Apply(After(s, steps), step)
    decreases steps
  {
    if steps == [] {
      assert [step][1..] == [];
    } else {
      OneMoreStep(Apply(s, steps[0]), steps[1..], step);
      assert (steps + [step])[1..] == steps[1..] + [step];
    }
  }

  // ---------------------------------------------------------------- one worker

  /** At most one body exists, the flag says exactly that, and a waiting event always has one. */
  predicate SingleWorker(s: System) {
    && |s.bodies| <= 1
    && (s.draining <==> |s.bodies| == 1)
    && (s.queue != [] ==> s.draining)
    && (s.bodies != [] ==> s.restored)
    && IsValidState(s.state)
  }

  lemma SingleWorkerStep(s: System, step: Step)
    requires SingleWorker(s) && Enabled(s, step)
    ensures SingleWorker(Apply(s, step))
  {
    match step
    case Loop(i) =>
      if s.queue != [] {
        ValidityIsKept(s.state, s.queue[0].event);
      }
    case _ =>
  }

  /** What the finally block leaves, given that one body runs. */
  lemma LeaveShape(s: System, i: nat)
    requires SingleWorker(s) && i < |s.bodies|
    ensures i == 0
    ensures Leave(s, i) == s.(draining := s.queue != [], bodies := if s.queue == [] then [] else [AtLoop])
  {
    assert s.bodies[..0] + s.bodies[1..] == [];
  }

  /** What an ended effect changes, given that one body runs. */
  lemma PerformShape(s: System, i: nat, answer: Answer)
    requires SingleWorker(s) && Enabled(s, Perform(i, answer))
    ensures var b := s.bodies[i];
            var t := DoPerform(s, i, answer);
            var e := FollowUpOf(b.result.effects[|b.outcomes|], answer, b.captured);
            && i == 0 && s.bodies == [b]
            && t == s.(queue := (if e.Some? then [Entry(e.value, FollowUp)] else []) + s.queue,
                       context := t.context,
                       bodies := [Advanced(b, answer != Fails, t.context)])
  {
  }

  /** In every run, whatever the interleaving and whichever reads, effects and writes fail. */
  lemma {:induction false} SingleWorkerAlways(s: System, steps: seq<Step>)
    requires SingleWorker(s) && Possible(s, steps)
    ensures SingleWorker(After(s, steps))
    decreases steps
  {
    if steps != [] {
      SingleWorkerStep(s, steps[0]);
      SingleWorkerAlways(Apply(s, steps[0]), steps[1..]);
    }
  }

  // ---------------------------------------------------------------- order of processing

  function Arrivals(entries: seq<Entry>): seq<nat> {
    if entries == [] then []
    else Number(entries[0]) + Arrivals(entries[1..])
  }

  /** The `count` numbers from `from` on. */
  function Range(from: nat, count: nat): seq<nat>
    decreases count
  {
    if count == 0 then [] else [from] + Range(from + 1, count - 1)
  }

  /** Follow-ups first, outside events after them. */
  predicate FollowUpsFirst(queue: seq<Entry>) {
    forall i, j :: 0 <= i < j < |queue| && queue[j].origin == FollowUp ==> queue[i].origin == FollowUp
  }

  /** The queue is follow-ups then outside events, and the outside events processed and waiting in
      this epoch are exactly those that arrived, once each, in order of arrival. */
  predicate Ordered(s: System) {
    && FollowUpsFirst(s.queue)
    && s.firstArrival <= s.arrivals
    && Arrivals(s.processed) + Arrivals(s.queue) == Range(s.firstArrival, s.arrivals - s.firstArrival)
  }

  function Number(entry: Entry): seq<nat> {
    if entry.origin.Outside? then [entry.origin.arrival] else []
  }

  lemma {:induction false} ArrivalsAppend(a: seq<Entry>, b: seq<Entry>)
    ensures Arrivals(a + b) == Arrivals(a) + Arrivals(b)
  {
    if a == [] {
      assert a + b == b;
    } else {
      ArrivalsAppend(a[1..], b);
      TailOfConcat(a, b);
      ConcatAssociates(Number(a[0]), Arrivals(a[1..]), Arrivals(b));
    }
  }

  lemma RangeAppend(from: nat, count: nat)
    ensures Range(from, count + 1) == Range(from, count) + [from + count]
    decreases count
  {
    if count > 0 {
      RangeAppend(from + 1, count - 1);
    }
  }

  lemma FollowUpsFirstLast(queue: seq<Entry>, entry: Entry)
    requires FollowUpsFirst(queue) && entry.origin.Outside?
    ensures FollowUpsFirst(queue + [entry])
  {
  }

  lemma FollowUpsFirstFront(queue: seq<Entry>, entry: Entry)
    requires FollowUpsFirst(queue) && entry.origin == FollowUp
    ensures FollowUpsFirst([entry] + queue)
  {
    var longer := [entry] + queue;
    forall i, j | 0 <= i < j < |longer| && longer[j].origin == FollowUp
      ensures longer[i].origin == FollowUp
    {
      if i > 0 {
        assert longer[j] == queue[j - 1] && longer[i] == queue[i - 1];
      }
    }
  }

  lemma ArrivalsGrow(processed: seq<Entry>, queue: seq<Entry>, entry: Entry, from: nat, count: nat)
    requires Arrivals(processed) + Arrivals(queue) == Range(from, count)
    requires entry.origin == Outside(from + count)
    ensures Arrivals(processed) + Arrivals(queue + [entry]) == Range(from, count + 1)
  {
    ArrivalsAppend(queue, [entry]);
    RangeAppend(from, count);
    assert Arrivals([entry]) == Number(entry) + Arrivals([]) == [from + count];
    ConcatAssociates(Arrivals(processed), Arrivals(queue), [from + count]);
  }

  /** A new arrival at the back keeps the order. */
  lemma OrderedFedLast(s: System, t: System, e: Event)
    requires Ordered(s)
    requires t.queue == s.queue + [Entry(e, Outside(s.arrivals))] && t.processed == s.processed
    requires t.firstArrival == s.firstArrival && t.arrivals == s.arrivals + 1
    ensures Ordered(t)
  {
    var entry := Entry(e, Outside(s.arrivals));
    FollowUpsFirstLast(s.queue, entry);
    ArrivalsGrow(s.processed, s.queue, entry, s.firstArrival, s.arrivals - s.firstArrival);
  }

  /** Moving the head of the queue to the processed events keeps the order. */
  lemma OrderedShift(processed: seq<Entry>, queue: seq<Entry>)
    requires queue != []
    ensures Arrivals(processed + [queue[0]]) + Arrivals(queue[1..]) == Arrivals(processed) + Arrivals(queue)
  {
    var head, rest := [queue[0]], queue[1..];
    assert queue == head + rest;
    ArrivalsAppend(processed, head);
    ArrivalsAppend(head, rest);
  }

  lemma FollowUpsFirstShift(queue: seq<Entry>)
    requires FollowUpsFirst(queue) && queue != []
    ensures FollowUpsFirst(queue[1..])
  {
    forall i, j | 0 <= i < j < |queue[1..]| && queue[1..][j].origin == FollowUp
      ensures queue[1..][i].origin == FollowUp
    {
      assert queue[j + 1].origin == FollowUp;
      assert queue[i + 1].origin == FollowUp;
    }
  }

  /** The fields that the order of processing depends on. */
  predicate SameOrder(s: System, t: System) {
    && s.queue == t.queue && s.processed == t.processed
    && s.firstArrival == t.firstArrival && s.arrivals == t.arrivals
  }

  lemma OrderedSame(s: System, t: System)
    requires Ordered(s) && SameOrder(s, t)
    ensures Ordered(t)
  {
  }

  /** The head of the queue has become the last processed event. */
  lemma OrderedTaken(s: System, t: System)
    requires Ordered(s) && s.queue != []
    requires t.queue == s.queue[1..] && t.processed == s.processed + [s.queue[0]]
    requires t.firstArrival == s.firstArrival && t.arrivals == s.arrivals
    ensures Ordered(t)
  {
    OrderedShift(s.processed, s.queue);
    FollowUpsFirstShift(s.queue);
  }

  /** What one turn of the loop does to the queue. */
  lemma LoopShape(s: System, i: nat)
    requires Enabled(s, Loop(i))
    ensures var t := DoLoop(s, i);
            && t.firstArrival == s.firstArrival && t.arrivals == s.arrivals
            && (s.queue == [] ==> SameOrder(s, t))
            && (s.queue != [] ==> t.queue == s.queue[1..] && t.processed == s.processed + [s.queue[0]])
  {
  }

  lemma OrderedLoop(s: System, i: nat)
    requires Ordered(s) && Enabled(s, Loop(i))
    ensures Ordered(DoLoop(s, i))
  {
    LoopShape(s, i);
    if s.queue == [] {
      OrderedSame(s, DoLoop(s, i));
    } else {
      OrderedTaken(s, DoLoop(s, i));
    }
  }

  /** A follow-up put in front keeps the order. */
  lemma OrderedFed(s: System, t: System, e: Event)
    requires Ordered(s)
    requires t.queue == [Entry(e, FollowUp)] + s.queue && t.processed == s.processed
    requires t.firstArrival == s.firstArrival && t.arrivals == s.arrivals
    ensures Ordered(t)
  {
    var entry := Entry(e, FollowUp);
    FollowUpsFirstFront(s.queue, entry);
    assert t.queue[1..] == s.queue;
    assert Arrivals(t.queue) == Number(entry) + Arrivals(s.queue) == Arrivals(s.queue);
  }

  /** What an ended effect does to the queue. */
  lemma FeedShape(s: System, i: nat, answer: Answer)
    requires Enabled(s, Perform(i, answer))
    ensures var b := s.bodies[i];
            var e := FollowUpOf(b.result.effects[|b.outcomes|], answer, b.captured);
            var t := DoPerform(s, i, answer);
            && t.processed == s.processed && t.firstArrival == s.firstArrival && t.arrivals == s.arrivals
            && t.queue == (if e.Some? then [Entry(e.value, FollowUp)] + s.queue else s.queue)
  {
  }

  lemma OrderedPerform(s: System, i: nat, answer: Answer)
    requires Ordered(s) && Enabled(s, Perform(i, answer))
    ensures Ordered(DoPerform(s, i, answer))
  {
    FeedShape(s, i, answer);
    var b := s.bodies[i];
    var e := FollowUpOf(b.result.effects[|b.outcomes|], answer, b.captured);
    if e.Some? {
      OrderedFed(s, DoPerform(s, i, answer), e.value);
    } else {
      OrderedSame(s, DoPerform(s, i, answer));
    }
  }

  lemma OrderedArrive(s: System, e: Event)
    requires Ordered(s)
    ensures Ordered(DoArrive(s, e))
  {
    OrderedFedLast(s, DoArrive(s, e), e);
  }

  /** A crash forgets the queue and what was processed, and counts arrivals from here on. */
  lemma OrderedCrash(s: System)
    ensures Ordered(DoCrash(s))
  {
  }

  /** The reads and writes of the files leave the queue alone. */
  lemma FilesKeepOrder(s: System, i: nat, done: bool)
    ensures Enabled(s, Restore(i, done)) ==> SameOrder(s, DoRestore(s, i, done))
    ensures Enabled(s, Append(i, done)) ==> SameOrder(s, DoAppend(s, i, done))
    ensures Enabled(s, Persist(i, done)) ==> SameOrder(s, DoPersist(s, i, done))
  {
  }

  lemma OrderedFiles(s: System, i: nat, done: bool)
    requires Ordered(s)
    ensures Enabled(s, Restore(i, done)) ==> Ordered(DoRestore(s, i, done))
    ensures Enabled(s, Append(i, done)) ==> Ordered(DoAppend(s, i, done))
    ensures Enabled(s, Persist(i, done)) ==> Ordered(DoPersist(s, i, done))
  {
    FilesKeepOrder(s, i, done);
    if Enabled(s, Restore(i, done)) {
      OrderedSame(s, DoRestore(s, i, done));
    }
    if Enabled(s, Append(i, done)) {
      OrderedSame(s, DoAppend(s, i, done));
    }
    if Enabled(s, Persist(i, done)) {
      OrderedSame(s, DoPersist(s, i, done));
    }
  }

  lemma OrderedStep(s: System, step: Step)
    requires Ordered(s) && Enabled(s, step)
    ensures Ordered(Apply(s, step))
  {
    match step
    case Arrive(e) => OrderedArrive(s, e);
    case Loop(i) => OrderedLoop(s, i);
    case Perform(i, answer) => OrderedPerform(s, i, answer);
    case CrashNow => OrderedCrash(s);
    case Restore(i, readable) => OrderedFiles(s, i, readable);
    case Append(i, written) => OrderedFiles(s, i, written);
    case Persist(i, written) => OrderedFiles(s, i, written);
  }

  /** First in, first out for outside events; follow-ups never wait behind one. */
  lemma {:induction false} OrderedAlways(s: System, steps: seq<Step>)
    requires Ordered(s) && Possible(s, steps)
    ensures Ordered(After(s, steps))
    decreases steps
  {
    if steps != [] {
      OrderedStep(s, steps[0]);
      OrderedAlways(Apply(s, steps[0]), steps[1..]);
    }
  }

  /** When a body takes an outside event, no follow-up of an earlier event is waiting, and the event is
      the oldest outside event not yet taken. */
  lemma OutsideEventsWaitTheirTurn(s: System, steps: seq<Step>, i: nat)
    requires Ordered(s) && Possible(s, steps)
    requires var t := After(s, steps);
             Enabled(t, Loop(i)) && t.queue != [] && t.queue[0].origin.Outside?
    ensures var t := After(s, steps);
            && (forall e <- t.queue :: e.origin.Outside?)
            && t.queue[0].origin.arrival == t.firstArrival + |Arrivals(t.processed)|
  {
    OrderedAlways(s, steps);
    OutsideHead(After(s, steps));
  }

  lemma OutsideHead(s: System)
    requires Ordered(s) && s.queue != [] && s.queue[0].origin.Outside?
    ensures forall e <- s.queue :: e.origin.Outside?
    ensures s.queue[0].origin.arrival == s.firstArrival + |Arrivals(s.processed)|
  {
    var n := |Arrivals(s.processed)|;
    var all := Arrivals(s.processed) + Arrivals(s.queue);
    assert all[n] == Arrivals(s.queue)[0] == s.queue[0].origin.arrival;
    RangeAt(s.firstArrival, s.arrivals - s.firstArrival, n);
  }

  lemma RangeAt(from: nat, count: nat, k: nat)
    ensures |Range(from, count)| == count
    ensures k < count ==> Range(from, count)[k] == from + k
    decreases count
  {
    if count > 0 {
      RangeAt(from + 1, count - 1, if k > 0 then k - 1 else 0);
    }
  }
}
