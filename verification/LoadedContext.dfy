/** The context of a turn: `buildContext` (workspace/moderator/src/adapter.ts). */
module LoadedContext {
  import opened Base
  import opened Text
  import opened Fsm
  import opened Context
  import opened ContextWindow
  import opened Continuation
  import opened Drain

  /** What the session knows: its state, and the messages that the moderator has put into the transcript. */
  datatype Knowledge = Knowledge(state: State, ownIDs: set<Context.Id>)

  datatype Loaded = Loaded(
    turn: TurnFact, origin: Option<Fsm.Id>, prompts: seq<string>, toolActivity: seq<string>, response: string)

  predicate IsTerminal(m: Message) {
    m.created && (m.finish == Some("stop") || m.summary)
  }

  predicate HasMode(m: Message, mode: string) {
    m.mode == Some(mode) || m.agent == Some(mode)
  }

  function OpenTodos(statuses: seq<Option<string>>): nat {
    if statuses == [] then 0
    else OpenTodos(statuses[1..]) + if statuses[0] == Some("completed") then 0 else 1
  }

  /** The messages after the judged one. */
  function Following(messages: seq<Message>, judged: Option<Message>): seq<Message> {
    if judged.None? then []
    else
      var index := FindIndex(messages, judged.value.id);
      if index < 0 then [] else messages[index + 1..]
  }

  /** A user wrote it, and the moderator did not put it there. */
  predicate IsNewPrompt(m: Message, ownIDs: set<Context.Id>) {
    m.role == User && !IsInjectedUser(m) && Key(m) !in ownIDs
  }

  /** The facts of the turn, from the judged message and what the walks over its ancestors found. */
  function TurnOf(
    judged: Option<Message>, origin: Option<Fsm.Id>, discussed: bool, newer: bool, todos: nat, s: State,
    rootBlock: string -> bool): TurnFact
  {
    if judged.None? then
      TurnFact(None, origin, Build, todos, false, false, false, false, newer, false, false, rootBlock(""), discussed,
               origin.Some? && origin != s.realUserCycleID)
    else
      var m := judged.value;
      TurnFact(
        m.id, origin, if HasMode(m, "answer") then Answer else Build, todos, IsTerminal(m),
        m.id.Some? && m.id == s.lastTerminalAssistantID,
        m.summary || m.agent == Some("compaction"), m.failed, newer, IsInjectedUser(m), HasMode(m, "plan"),
        rootBlock(AssistantText(m)), discussed, origin.Some? && origin != s.realUserCycleID)
  }

  /** What the turn says of its message, in the message's own fields. */
  predicate SaysOf(turn: TurnFact, judged: Option<Message>, rootBlock: string -> bool) {
    match judged
    case None => turn.assistantID.None? && !turn.terminal && turn.rootBlocked == rootBlock("")
    case Some(m) =>
      && turn.assistantID == m.id
      && (turn.terminal <==> m.created && (m.finish == Some("stop") || m.summary))
      && (turn.planMode <==> m.mode == Some("plan") || m.agent == Some("plan"))
      && (turn.agentMode == Answer <==> m.mode == Some("answer") || m.agent == Some("answer"))
      && (turn.compaction <==> m.summary || m.agent == Some("compaction"))
      && (turn.assistantError <==> m.failed)
      && (m.role == Assistant ==> (turn.moderatorTrace <==> m.marked))
      && turn.rootBlocked == rootBlock(AssistantText(m))
  }

  lemma TurnOfSays(
    judged: Option<Message>, origin: Option<Fsm.Id>, discussed: bool, newer: bool, todos: nat, s: State,
    rootBlock: string -> bool)
    requires discussed ==> s.blocker.Some?
    ensures var turn := TurnOf(judged, origin, discussed, newer, todos, s, rootBlock);
            && SaysOf(turn, judged, rootBlock) && ReadIn(turn, s)
            && turn.userMessageID == origin && turn.todosOpen == todos
            && turn.userNewer == newer && turn.blockerDiscussion == discussed
  {
  }

  method BuildContext(
    messages: seq<Message>, statuses: seq<Option<string>>, k: Knowledge, rootBlock: string -> bool)
    returns (r: Result<Loaded, Context.Id>)
    ensures r.Ok? ==> Describes(messages, statuses, k, rootBlock, r.value)
    ensures r.Err? ==> WalkFails(messages, k.state)
  {
    var judged := NewestModeratedAssistant(messages);
    var found := RealUserAncestor(judged, messages);
    if found.Err? {
      return Err(found.error);
    }
    var window := SelectWindow(judged, messages);
    if window.Err? {
      return Err(window.error);
    }
    var discussed: Result<bool, Context.Id> := Ok(false);
    if k.state.blocker.Some? {
      discussed := InBranch(found.value, messages, k.state.blocker.value.originUserID);
    }
    if discussed.Err? {
      return Err(discussed.error);
    }
    var origin := if found.value.Some? then found.value.value.id else None;
    var newer := exists m <- Following(messages, judged) :: IsNewPrompt(m, k.ownIDs);
    var turn := TurnOf(judged, origin, discussed.value, newer, OpenTodos(statuses), k.state, rootBlock);
    TurnOfSays(judged, origin, discussed.value, newer, OpenTodos(statuses), k.state, rootBlock);
    var spoken := if judged.Some? then AssistantText(judged.value) else "";
    var response := if |window.value.response| > 0 then window.value.response else spoken;
    r := Ok(Loaded(turn, origin, window.value.prompts, window.value.toolActivity, response));
    WalksDescribe(messages, k.state, found.value, turn, discussed.value);
    assert ShowsWindow(messages, r.value, window.value);
  }

  lemma WalksDescribe(
    messages: seq<Message>, s: State, user: Option<Message>, turn: TurnFact, discussed: bool)
    requires IsOrigin(messages, user) && turn.blockerDiscussion == discussed
    requires turn.userMessageID == if user.Some? then user.value.id else None
    requires s.blocker.None? || user.None? || s.blocker.value.originUserID.None? ==> !discussed
    requires user.Some? && s.blocker.Some? && s.blocker.value.originUserID.Some? ==>
               exists found ::
                 && Finds(user.value, ByID(messages),
                          (m: Message) => Key(m) == s.blocker.value.originUserID.value, found)
                 && found.Ok? && discussed == found.value.Some?
    ensures OriginOf(messages, s, turn, user)
  {
    if user.Some? && s.blocker.Some? && s.blocker.value.originUserID.Some? {
      var stop := (m: Message) => Key(m) == s.blocker.value.originUserID.value;
      forall a, b | Finds(user.value, ByID(messages), stop, a) && Finds(user.value, ByID(messages), stop, b)
        ensures a == b
      {
        FindsIsDetermined(user.value, ByID(messages), stop, a, b);
      }
    }
  }

  lemma FindsIsDetermined(
    start: Message, byID: Index, stop: Message -> bool,
    a: Result<Option<Message>, Context.Id>, b: Result<Option<Message>, Context.Id>)
    requires Finds(start, byID, stop, a) && Finds(start, byID, stop, b)
    ensures a == b
  {
    var ca: seq<Message>, na: Option<Message> :|
      Searched(start, byID, stop, ca, na) && a == if Returns(ca, na) then Err(Key(na.value)) else Ok(na);
    var cb: seq<Message>, nb: Option<Message> :|
      Searched(start, byID, stop, cb, nb) && b == if Returns(cb, nb) then Err(Key(nb.value)) else Ok(nb);
    SearchIsDetermined(start, byID, stop, ca, na, cb, nb);
  }

  // ---------------------------------------------------------------- what it says

  /** A walk from the judged message, or from its prompt, comes back to itself. */
  ghost predicate WalkFails(messages: seq<Message>, s: State) {
    && Newest(messages).Some?
    && var start, byID := Newest(messages).value, ByID(messages);
       || (exists id :: Finds(start, byID, IsRealUser, Err(id)))
       || (exists id :: Selects(start, byID, Err(id)))
       || (exists user, id ::
             && Finds(start, byID, IsRealUser, Ok(Some(user))) && s.blocker.Some?
             && s.blocker.value.originUserID.Some?
             && Finds(user, byID, (m: Message) => Key(m) == s.blocker.value.originUserID.value, Err(id)))
  }

  /** The prompt that the judged message answers. */
  ghost predicate IsOrigin(messages: seq<Message>, user: Option<Message>) {
    if Newest(messages).None? then user.None?
    else Finds(Newest(messages).value, ByID(messages), IsRealUser, Ok(user))
  }

  /** The blocker came up in the branch of the prompt. */
  ghost predicate Discusses(messages: seq<Message>, user: Option<Message>, s: State) {
    && user.Some? && s.blocker.Some? && s.blocker.value.originUserID.Some?
    && exists found: Option<Message> ::
         found.Some?
         && Finds(user.value, ByID(messages), (m: Message) => Key(m) == s.blocker.value.originUserID.value, Ok(found))
  }

  /** The origin is the id of this prompt, and the blocker is discussed exactly if it came up in its branch. */
  ghost predicate OriginOf(messages: seq<Message>, s: State, turn: TurnFact, user: Option<Message>) {
    && IsOrigin(messages, user)
    && turn.userMessageID == (if user.Some? then user.value.id else None)
    && (turn.blockerDiscussion <==> Discusses(messages, user, s))
  }

  /** The judge sees this window, and the message itself where the window has no response. */
  ghost predicate ShowsWindow(messages: seq<Message>, l: Loaded, window: Window) {
    && l.prompts == window.prompts && l.toolActivity == window.toolActivity
    && l.response == (if window.response != "" then window.response
                      else if Newest(messages).Some? then AssistantText(Newest(messages).value)
                      else "")
    && (Newest(messages).Some? ==> Selects(Newest(messages).value, ByID(messages), Ok(window)))
  }

  ghost predicate Describes(
    messages: seq<Message>, statuses: seq<Option<string>>, k: Knowledge, rootBlock: string -> bool, l: Loaded)
  {
    && ReadIn(l.turn, k.state)
    && SaysOf(l.turn, Newest(messages), rootBlock)
    && l.origin == l.turn.userMessageID && l.turn.todosOpen == OpenTodos(statuses)
    && (exists user :: OriginOf(messages, k.state, l.turn, user))
    && (exists window :: ShowsWindow(messages, l, window))
    && (l.turn.userNewer <==> exists m <- Following(messages, Newest(messages)) :: IsNewPrompt(m, k.ownIDs))
  }

  /** A prompt after the judged message makes its turn not worth classifying, and a message that is not
      finished, failed, planned, compacted or was put there by the moderator is never classified. */
  lemma WhatIsNotClassified(
    messages: seq<Message>, statuses: seq<Option<string>>, k: Knowledge, rootBlock: string -> bool, l: Loaded,
    j: nat, prompt: nat)
    requires Describes(messages, statuses, k, rootBlock, l) && Eligible(l.turn)
    requires DistinctIds(messages) && IsLastAssistant(messages, j)
    ensures messages[j].created && (messages[j].finish == Some("stop") || messages[j].summary)
    ensures !messages[j].failed && !messages[j].marked && !messages[j].summary
    ensures messages[j].mode != Some("plan") && messages[j].agent != Some("plan")
    ensures j < prompt < |messages| ==> !IsNewPrompt(messages[prompt], k.ownIDs)
    ensures messages[j].id.Some? ==> messages[j].id != k.state.lastTerminalAssistantID
  {
    FollowingIs(messages, j);
    if j < prompt < |messages| {
      assert messages[j + 1..][prompt - j - 1] == messages[prompt];
    }
  }

  lemma NewestIsTheLast(messages: seq<Message>, j: nat)
    requires IsLastAssistant(messages, j)
    ensures Newest(messages) == Some(messages[j])
  {
    NewestIsLast(messages);
    var i :| 0 <= i < |messages| && Newest(messages) == Some(messages[i]) && messages[i].role == Assistant
             && forall x :: i < x < |messages| ==> messages[x].role == User;
    assert i == j;
  }

  /** What follows the judged message is everything behind the last assistant message. */
  lemma FollowingIs(messages: seq<Message>, j: nat)
    requires DistinctIds(messages) && IsLastAssistant(messages, j)
    ensures Newest(messages) == Some(messages[j]) && Following(messages, Newest(messages)) == messages[j + 1..]
  {
    NewestIsTheLast(messages, j);
    FindLast(messages, j);
  }

  /** A user message that has no marker, no synthetic part of the moderator, and an id that the moderator
      does not know as its own. */
  predicate ByAUser(m: Message, ownIDs: set<Context.Id>) {
    && m.role == User && !m.marked
    && (forall part <- m.parts :: part.synthetic ==> !part.moderation)
    && (m.id.None? ==> "" !in ownIDs) && (m.id.Some? ==> m.id.value !in ownIDs)
  }

  lemma NewPromptIs(m: Message, ownIDs: set<Context.Id>)
    ensures IsNewPrompt(m, ownIDs) <==> ByAUser(m, ownIDs)
  {
  }

  /** The turn has a newer prompt exactly if a user wrote one behind the last assistant message. */
  lemma NewerPromptIs(
    messages: seq<Message>, statuses: seq<Option<string>>, k: Knowledge, rootBlock: string -> bool, l: Loaded, j: nat)
    requires DistinctIds(messages) && IsLastAssistant(messages, j)
    requires Describes(messages, statuses, k, rootBlock, l)
    ensures l.turn.userNewer <==> exists p :: j < p < |messages| && ByAUser(messages[p], k.ownIDs)
  {
    FollowingIs(messages, j);
    PromptBehind(messages, k.ownIDs, j);
  }

  lemma PromptBehind(messages: seq<Message>, ownIDs: set<Context.Id>, j: nat)
    requires j < |messages|
    ensures (exists m <- messages[j + 1..] :: IsNewPrompt(m, ownIDs)) <==>
            exists p :: j < p < |messages| && ByAUser(messages[p], ownIDs)
  {
    forall m: Message ensures IsNewPrompt(m, ownIDs) <==> ByAUser(m, ownIDs) {
      NewPromptIs(m, ownIDs);
    }
    var following := messages[j + 1..];
    if p :| j < p < |messages| && ByAUser(messages[p], ownIDs) {
      assert following[p - j - 1] == messages[p];
    }
    if m :| m in following && IsNewPrompt(m, ownIDs) {
      var x :| 0 <= x < |following| && following[x] == m;
      assert messages[j + 1 + x] == m;
    }
  }

  /** Todos count as open until they are completed. */
  lemma {:induction false} OpenTodosCount(statuses: seq<Option<string>>)
    ensures OpenTodos(statuses) + multiset(statuses)[Some("completed")] == |statuses|
  {
    if statuses != [] {
      OpenTodosCount(statuses[1..]);
      assert statuses == [statuses[0]] + statuses[1..];
    }
  }
}
