/** The guard of `sendContinuation` as an effect of the drain (workspace/moderator/src/adapter.ts): the drain
    of a session and its transcript together. */
module ContinuationDrain {
  import opened Base
  import opened Fsm
  import opened Context
  import opened Continuation
  import opened Drain

  /** The session, its transcript, and the bodies that have passed the check of `sendContinuation` and wait
      for their request to end. */
  datatype Joint = Joint(session: System, messages: seq<Message>, passed: set<nat>)

  datatype Move =
    | OfDrain(step: Drain.Step)
    | CheckBy(body: nat)
    | DeliverBy(body: nat, message: Message)
    | FailBy(body: nat)
    | ForeignMessage(message: Message)

  /** The body waits for a continuation to be sent. */
  predicate Sending(s: System, i: nat) {
    && i < |s.bodies| && s.bodies[i].Performing?
    && var b := s.bodies[i];
       |b.outcomes| < |b.result.effects| && b.result.effects[|b.outcomes|].SendContinuation?
  }

  /** Sending ends only as `sendContinuation` ends: by a delivery, or by a failure of the read, of the check
      or of the request. */
  predicate CanMove(j: Joint, move: Move) {
    match move
    case OfDrain(step) => Drain.Enabled(j.session, step) && !(step.Perform? && Sending(j.session, step.body))
    case CheckBy(i) => Sending(j.session, i) && i !in j.passed
    case DeliverBy(i, m) =>
      Sending(j.session, i) && i in j.passed && IsContinuation(m) && FreshIn(j.messages, m)
    case FailBy(i) => Sending(j.session, i)
    case ForeignMessage(m) => !Moderated(m) && FreshIn(j.messages, m)
  }

  function Moved(j: Joint, move: Move): Joint
    requires CanMove(j, move)
  {
    match move
    case OfDrain(step) => Joint(Drain.Apply(j.session, step), j.messages, if step.CrashNow? then {} else j.passed)
    case CheckBy(i) => j.(passed := if AlreadyContinued(j.messages) then j.passed else j.passed + {i})
    case DeliverBy(i, m) =>
      Joint(DoPerform(j.session, i, Succeeds), j.messages + [m], j.passed - {i})
    case FailBy(i) => j.(session := DoPerform(j.session, i, Fails), passed := j.passed - {i})
    case ForeignMessage(m) => j.(messages := j.messages + [m])
  }

  predicate CanAll(j: Joint, moves: seq<Move>)
    decreases moves
  {
    moves == [] || (CanMove(j, moves[0]) && CanAll(Moved(j, moves[0]), moves[1..]))
  }

  function AfterAll(j: Joint, moves: seq<Move>): Joint
    requires CanAll(j, moves)
    decreases moves
  {
    if moves == [] then j else AfterAll(Moved(j, moves[0]), moves[1..])
  }

  /** What the guard sees of it: one delivery at most is under way. */
  function ThreadOf(j: Joint): Thread {
    Thread(j.messages, j.passed != {})
  }

  /** The body that has passed the check is still sending. */
  predicate Waiting(j: Joint) {
    forall i <- j.passed :: Sending(j.session, i)
  }

  ghost predicate Safe(j: Joint) {
    SingleWorker(j.session) && Waiting(j) && Guarded(ThreadOf(j))
  }

  /** With one worker the passed body is the only one. */
  lemma OneSender(j: Joint, i: nat)
    requires SingleWorker(j.session) && Waiting(j) && Sending(j.session, i)
    ensures i == 0 && j.passed <= {0}
  {
    forall k <- j.passed ensures k == 0 {
      assert Sending(j.session, k);
    }
  }

  /** A step of the drain that does not end the sending leaves the sending body where it is. */
  lemma SendingStays(s: System, step: Drain.Step, i: nat)
    requires SingleWorker(s) && Drain.Enabled(s, step) && !step.CrashNow? && Sending(s, i)
    requires !(step.Perform? && Sending(s, step.body))
    ensures Sending(Drain.Apply(s, step), i)
  {
    assert i == 0 && s.bodies == [s.bodies[0]];
    match step
    case Arrive(e) => assert DoArrive(s, e).bodies == s.bodies;
    case _ =>
  }

  lemma EndedIsSafe(j: Joint, i: nat, answer: Answer)
    requires SingleWorker(j.session) && Sending(j.session, i) && (answer == Fails || answer == Succeeds)
    ensures SingleWorker(DoPerform(j.session, i, answer))
  {
    SingleWorkerStep(j.session, Perform(i, answer));
  }

  /** Every move keeps the invariant of the guard; the deliveries of the drain are those of the guarded
      thread. */
  lemma SafeMove(j: Joint, move: Move)
    requires Safe(j) && CanMove(j, move)
    ensures Safe(Moved(j, move))
  {
    match move
    case OfDrain(step) =>
      SingleWorkerStep(j.session, step);
      if !step.CrashNow? {
        forall i <- j.passed ensures Sending(Drain.Apply(j.session, step), i) {
          SendingStays(j.session, step, i);
        }
      }
    case CheckBy(i) =>
      OneSender(j, i);
      GuardedStep(ThreadOf(j), Check);
    case DeliverBy(i, m) =>
      OneSender(j, i);
      EndedIsSafe(j, i, Succeeds);
      GuardedStep(ThreadOf(j), Deliver(m));
    case FailBy(i) =>
      OneSender(j, i);
      EndedIsSafe(j, i, Fails);
    case ForeignMessage(m) => GuardedStep(ThreadOf(j), Foreign(m));
  }

  /** The drain as it is, with any interleaving of outside events, foreign messages, failures and crashes,
      never puts two continuations between an assistant message and the next one. */
  lemma {:induction false} DrainKeepsContinuationsApart(j: Joint, moves: seq<Move>)
    requires Safe(j) && CanAll(j, moves)
    ensures Safe(AfterAll(j, moves)) && AtMostOne(AfterAll(j, moves).messages)
    decreases moves
  {
    if moves != [] {
      SafeMove(j, moves[0]);
      DrainKeepsContinuationsApart(Moved(j, moves[0]), moves[1..]);
    }
  }

  /** A session starts safe on any transcript that keeps continuations apart. */
  lemma FreshIsSafe(disk: Snapshot, messages: seq<Message>)
    requires DistinctIds(messages) && AtMostOne(messages)
    ensures Safe(Joint(Fresh(disk), messages, {}))
  {
  }
}
