/** The guard that keeps moderator continuations apart: `sendContinuation`
    (workspace/moderator/src/adapter.ts), while other actors append to the same transcript. */
module Continuation {
  import opened Base
  import opened Context
  import opened ContextWindow

  /** A part that the moderator marks its continuations with. */
  predicate Moderated(m: Message) {
    exists p <- m.parts :: p.synthetic && p.moderation
  }

  predicate IsContinuation(m: Message) {
    m.role == User && Moderated(m)
  }

  function FindIndex(messages: seq<Message>, id: Option<Id>): (index: int)
    ensures -1 <= index < |messages|
  {
    if messages == [] then -1
    else if messages[0].id == id then 0
    else
      var rest := FindIndex(messages[1..], id);
      if rest < 0 then -1 else rest + 1
  }

  /** The check that `sendContinuation` makes on the messages it has read. */
  predicate AlreadyContinued(messages: seq<Message>) {
    var assistant := Newest(messages);
    assistant.Some?
    && var index := FindIndex(messages, assistant.value.id);
       index >= 0 && exists m <- messages[index + 1..] :: Moderated(m)
  }

  /** A transcript, and whether a continuation has passed the check and is not yet appended. */
  datatype Thread = Thread(messages: seq<Message>, sending: bool)

  datatype Step =
    | Check
    | Deliver(message: Message)
    | Lose
    | Foreign(message: Message)

  predicate FreshIn(messages: seq<Message>, m: Message) {
    forall other <- messages :: Key(other) != Key(m)
  }

  predicate Enabled(t: Thread, step: Step) {
    match step
    case Check => !t.sending
    case Deliver(m) => t.sending && IsContinuation(m) && FreshIn(t.messages, m)
    case Lose => t.sending
    case Foreign(m) => !Moderated(m) && FreshIn(t.messages, m)
  }

  function Apply(t: Thread, step: Step): Thread
    requires Enabled(t, step)
  {
    match step
    case Check => t.(sending := !AlreadyContinued(t.messages))
    case Deliver(m) => Thread(t.messages + [m], false)
    case Lose => t.(sending := false)
    case Foreign(m) => t.(messages := t.messages + [m])
  }

  predicate Possible(t: Thread, steps: seq<Step>)
    decreases steps
  {
    steps == [] || (Enabled(t, steps[0]) && Possible(Apply(t, steps[0]), steps[1..]))
  }

  function After(t: Thread, steps: seq<Step>): Thread
    requires Possible(t, steps)
    decreases steps
  {
    if steps == [] then t else After(Apply(t, steps[0]), steps[1..])
  }

  predicate AssistantBetween(messages: seq<Message>, p: int, q: int)
    requires 0 <= p < q < |messages|
  {
    exists k :: p < k < q && messages[k].role == Assistant
  }

  /** At most one continuation lies between an assistant message and the next one. */
  ghost predicate AtMostOne(messages: seq<Message>) {
    forall a, p, q ::
      (0 <= a < p < q < |messages| && messages[a].role == Assistant
       && IsContinuation(messages[p]) && IsContinuation(messages[q])) ==> AssistantBetween(messages, p, q)
  }

  predicate IsLastAssistant(messages: seq<Message>, a: int) {
    && 0 <= a < |messages| && messages[a].role == Assistant
    && (forall k :: a < k < |messages| ==> messages[k].role == User)
  }

  /** Nothing moderated follows the last assistant message. */
  ghost predicate Clear(messages: seq<Message>) {
    forall a, p :: IsLastAssistant(messages, a) && a < p < |messages| ==> !Moderated(messages[p])
  }

  lemma {:induction false} FindIndexFinds(messages: seq<Message>, i: nat)
    requires i < |messages| && (forall k :: 0 <= k < i ==> messages[k].id != messages[i].id)
    ensures FindIndex(messages, messages[i].id) == i
  {
    if i > 0 {
      forall k | 0 <= k < i - 1 ensures messages[1..][k].id != messages[1..][i - 1].id {
        assert messages[1..][k] == messages[k + 1];
      }
      FindIndexFinds(messages[1..], i - 1);
    }
  }

  lemma FindLast(messages: seq<Message>, i: nat)
    requires DistinctIds(messages) && i < |messages|
    ensures FindIndex(messages, messages[i].id) == i
  {
    forall k | 0 <= k < i ensures messages[k].id != messages[i].id {
      assert Key(messages[k]) != Key(messages[i]);
    }
    FindIndexFinds(messages, i);
  }

  lemma ModeratedAfter(messages: seq<Message>, i: nat)
    requires i < |messages|
    ensures (exists m <- messages[i + 1..] :: Moderated(m)) <==>
            exists p :: i < p < |messages| && Moderated(messages[p])
  {
    if p :| i < p < |messages| && Moderated(messages[p]) {
      assert messages[i + 1..][p - i - 1] == messages[p];
    }
  }

  /** With distinct ids the check says exactly whether the last assistant message has been continued. */
  lemma CheckIsExact(messages: seq<Message>)
    requires DistinctIds(messages)
    ensures AlreadyContinued(messages) <==> !Clear(messages)
  {
    NewestIsLast(messages);
    if Newest(messages).Some? {
      var i: nat :| i < |messages| && Newest(messages) == Some(messages[i]) && messages[i].role == Assistant
                    && forall k :: i < k < |messages| ==> messages[k].role == User;
      assert IsLastAssistant(messages, i);
      FindLast(messages, i);
      ModeratedAfter(messages, i);
    }
  }

  ghost predicate Guarded(t: Thread) {
    DistinctIds(t.messages) && AtMostOne(t.messages) && (t.sending ==> Clear(t.messages))
  }

  lemma DistinctGrows(messages: seq<Message>, m: Message)
    requires DistinctIds(messages) && FreshIn(messages, m)
    ensures DistinctIds(messages + [m])
  {
  }

  lemma ForeignKeepsClear(messages: seq<Message>, m: Message)
    requires Clear(messages) && !Moderated(m)
    ensures Clear(messages + [m])
  {
    var longer := messages + [m];
    forall a, p | IsLastAssistant(longer, a) && a < p < |longer| ensures !Moderated(longer[p]) {
      assert longer[..|messages|] == messages;
      assert longer[a] == messages[a];
      forall k | a < k < |messages| ensures messages[k].role == User {
        assert longer[k] == messages[k];
      }
      assert IsLastAssistant(messages, a);
    }
  }

  lemma LastAssistantBefore(messages: seq<Message>, a: nat, p: nat) returns (last: nat)
    requires a < p < |messages| && messages[a].role == Assistant
    requires forall k :: p <= k < |messages| ==> messages[k].role == User
    ensures last < p && IsLastAssistant(messages, last)
  {
    last := p - 1;
    while messages[last].role != Assistant
      invariant a <= last < p
      invariant forall k :: last < k < |messages| ==> messages[k].role == User
      decreases last
    {
      last := last - 1;
    }
  }

  /** In a clear transcript an assistant follows every continuation that an assistant precedes. */
  lemma ClearMeansAnswered(messages: seq<Message>, a: nat, p: nat)
    requires Clear(messages) && a < p < |messages|
    requires messages[a].role == Assistant && IsContinuation(messages[p])
    ensures exists k :: p < k < |messages| && messages[k].role == Assistant
  {
    if forall k :: p < k < |messages| ==> messages[k].role == User {
      var last := LastAssistantBefore(messages, a, p);
      assert false;
    }
  }

  lemma AppendKeepsAtMostOne(messages: seq<Message>, m: Message)
    requires AtMostOne(messages) && (IsContinuation(m) ==> Clear(messages))
    ensures AtMostOne(messages + [m])
  {
    var longer := messages + [m];
    forall a, p, q | 0 <= a < p < q < |longer| && longer[a].role == Assistant
                     && IsContinuation(longer[p]) && IsContinuation(longer[q])
      ensures AssistantBetween(longer, p, q)
    {
      assert longer[a] == messages[a] && longer[p] == messages[p];
      if q < |messages| {
        assert longer[q] == messages[q];
        assert AssistantBetween(messages, p, q);
        var k :| p < k < q && messages[k].role == Assistant;
        assert longer[k].role == Assistant;
      } else {
        ClearMeansAnswered(messages, a, p);
        var k :| p < k < |messages| && messages[k].role == Assistant;
        assert longer[k].role == Assistant;
      }
    }
  }

  lemma GuardedStep(t: Thread, step: Step)
    requires Guarded(t) && Enabled(t, step)
    ensures Guarded(Apply(t, step))
  {
    match step
    case Check => CheckIsExact(t.messages);
    case Lose =>
    case Deliver(m) =>
      DistinctGrows(t.messages, m);
      AppendKeepsAtMostOne(t.messages, m);
    case Foreign(m) =>
      DistinctGrows(t.messages, m);
      AppendKeepsAtMostOne(t.messages, m);
      if t.sending {
        ForeignKeepsClear(t.messages, m);
      }
  }

  /** However reads, foreign messages, deliveries and losses interleave, no two continuations ever lie
      between an assistant message and the next one. */
  lemma {:induction false} ContinuationsStayApart(t: Thread, steps: seq<Step>)
    requires Guarded(t) && Possible(t, steps)
    ensures Guarded(After(t, steps))
    decreases steps
  {
    if steps != [] {
      GuardedStep(t, steps[0]);
      ContinuationsStayApart(Apply(t, steps[0]), steps[1..]);
    }
  }

  /** The guard needs the single worker: two deliveries after one check break it. */
  lemma TwoDeliveriesBreakIt(assistant: Message, first: Message, second: Message)
    requires assistant.role == Assistant && IsContinuation(first) && IsContinuation(second)
    ensures !AlreadyContinued([assistant]) && !AtMostOne([assistant, first, second])
  {
    var messages := [assistant, first, second];
    assert messages[0].role == Assistant && IsContinuation(messages[1]) && IsContinuation(messages[2]);
    assert Newest([assistant]) == Some(assistant);
    assert FindIndex([assistant], assistant.id) == 0;
  }

  /** The message that `sendContinuation` asks for, with a status line and a note. */
  function ContinuationMessage(id: Id, parent: Option<Id>, status: string, note: string): Message {
    Message(Some(id), User, parent, None, None, false, false, true, None, false,
            [ Part(TextPart, Some(status), true, true, false, None, "", ""),
              Part(TextPart, Some(note), false, true, false, None, "", "") ])
  }

  /** The moderator recognises its own continuation, and never takes it for a prompt; its note alone would
      not be enough, nor a synthetic part of another kind. */
  lemma OwnContinuationIsRecognised(id: Id, parent: Option<Id>, status: string, note: string)
    ensures var m := ContinuationMessage(id, parent, status, note);
            && IsContinuation(m) && Skipped(m) && !IsRealUser(m)
            && !Moderated(m.(parts := m.parts[1..]))
            && !Moderated(m.(parts := [m.parts[0].(moderation := false)]))
  {
    var m := ContinuationMessage(id, parent, status, note);
    assert m.parts[0] in m.parts;
  }
}
