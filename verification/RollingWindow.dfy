/** The window of turns that a replay step sends
    (scripts/benchmark/llamafile_transcript_classifier/replay_window.py and replay_steps.py). */
module RollingWindow {
  import opened Base
  import opened Transcripts

  datatype Message = Message(role: string, content: string)

  type Counter = seq<Message> -> Option<int>

  // ---------------------------------------------------------------- messages and their size

  /** The prompt and the answer of each turn. */
  function Dialogue(turns: seq<Turn>): seq<Message> {
    if turns == [] then []
    else
      var last := turns[|turns| - 1];
      Dialogue(turns[..|turns| - 1]) + [Message("user", last.user), Message("assistant", last.assistant)]
  }

  function Messages(system: string, turns: seq<Turn>, task: string): seq<Message> {
    [Message("system", system)] + Dialogue(turns) + [Message("user", task)]
  }

  method BuildMessages(system: string, turns: seq<Turn>, task: string) returns (messages: seq<Message>)
    ensures messages == Messages(system, turns, task)
  {
    messages := [Message("system", system)];
    for i := 0 to |turns|
      invariant messages == [Message("system", system)] + Dialogue(turns[..i])
    {
      assert turns[..i + 1][..i] == turns[..i];
      messages := messages + [Message("user", turns[i].user)];
      messages := messages + [Message("assistant", turns[i].assistant)];
    }
    assert turns[..|turns|] == turns;
    messages := messages + [Message("user", task)];
  }

  lemma {:induction false} DialogueAt(turns: seq<Turn>)
    ensures |Dialogue(turns)| == 2 * |turns|
    ensures forall k :: 0 <= k < |turns| ==>
                          && Dialogue(turns)[2 * k] == Message("user", turns[k].user)
                          && Dialogue(turns)[2 * k + 1] == Message("assistant", turns[k].assistant)
  {
    if turns != [] {
      DialogueAt(turns[..|turns| - 1]);
    }
  }

  /** Nothing of a window is lost or mixed up in its messages: they determine the prompt and every text. */
  lemma MessagesTellApart(system: string, turns: seq<Turn>, task: string, turns': seq<Turn>, task': string)
    requires Messages(system, turns, task) == Messages(system, turns', task')
    ensures task == task' && |turns| == |turns'|
    ensures forall k :: 0 <= k < |turns| ==>
                          turns[k].user == turns'[k].user && turns[k].assistant == turns'[k].assistant
  {
    DialogueAt(turns);
    DialogueAt(turns');
    var all, all' := Messages(system, turns, task), Messages(system, turns', task');
    assert all[|all| - 1].content == all'[|all'| - 1].content;
    assert all[1..|all| - 1] == Dialogue(turns) && all'[1..|all'| - 1] == Dialogue(turns');
    forall k | 0 <= k < |turns|
      ensures turns[k].user == turns'[k].user && turns[k].assistant == turns'[k].assistant
    {
      assert Dialogue(turns)[2 * k].content == Dialogue(turns')[2 * k].content;
      assert Dialogue(turns)[2 * k + 1].content == Dialogue(turns')[2 * k + 1].content;
    }
  }

  function Chars(messages: seq<Message>): nat {
    if messages == [] then 0 else |messages[0].content| + Chars(messages[1..])
  }

  /** The estimate from the number of characters; dividing by zero raises. */
  function Estimated(messages: seq<Message>, charsPerToken: real): Option<int> {
    if charsPerToken == 0.0 then None else Some(TokensOf(Chars(messages), charsPerToken))
  }

  // ---------------------------------------------------------------- selecting

  datatype ReplayError = NoTurns | CountFailed

  datatype SelectContext = SelectContext(
    system: string, task: string, limit: int, counter: Option<Counter>, charsPerToken: real)

  datatype Window = Window(visible: seq<Turn>, start: int, count: nat, rolled: bool)

  /** Python's `turns[:end]`. */
  function Prefix(turns: seq<Turn>, end: int): seq<Turn> {
    if end > |turns| then turns
    else if end >= 0 then turns[..end]
    else if |turns| + end >= 0 then turns[..|turns| + end]
    else []
  }

  /** The size of what remains of the turns from offset `k`; none when counting raises. */
  function Measured(turns: seq<Turn>, k: nat, c: SelectContext): Option<int>
    requires k <= |turns|
  {
    var messages := Messages(c.system, turns[k..], c.task);
    if c.counter.Some? then c.counter.value(messages) else Estimated(messages, c.charsPerToken)
  }

  predicate Fits(turns: seq<Turn>, k: nat, c: SelectContext)
    requires k <= |turns|
  {
    Measured(turns, k, c).Some? && Measured(turns, k, c).value <= c.limit
  }

  predicate Over(turns: seq<Turn>, k: nat, c: SelectContext)
    requires k <= |turns|
  {
    Measured(turns, k, c).Some? && Measured(turns, k, c).value > c.limit
  }

  /** Everything longer than the suffix at `k` was counted and does not fit. */
  predicate LongerDoNotFit(turns: seq<Turn>, k: nat, c: SelectContext)
    requires k <= |turns|
  {
    forall j :: 0 <= j < k ==> Over(turns, j, c)
  }

  /** The suffix at `k` is the longest that fits, or the last turn when none fits. */
  predicate Selects(turns: seq<Turn>, k: nat, c: SelectContext) {
    && k < |turns| && LongerDoNotFit(turns, k, c)
    && (Fits(turns, k, c) || (k == |turns| - 1 && Measured(turns, k, c).Some?))
  }

  /** Counting raises before a suffix fits. */
  predicate CountingFails(turns: seq<Turn>, c: SelectContext) {
    exists k :: 0 <= k < |turns| && LongerDoNotFit(turns, k, c) && Measured(turns, k, c).None?
  }

  function WindowAt(turns: seq<Turn>, k: nat): Window
    requires k < |turns|
  {
    Window(turns[k..], turns[k].index, |turns| - k, k > 0)
  }

  method SelectWindowTurns(turns: seq<Turn>, end: int, c: SelectContext)
    returns (r: Result<Window, ReplayError>, ghost k: nat)
    ensures r == Err(NoTurns) <==> Prefix(turns, end) == []
    ensures r == Err(CountFailed) <==> CountingFails(Prefix(turns, end), c)
    ensures r.Ok? ==> Selects(Prefix(turns, end), k, c) && r.value == WindowAt(Prefix(turns, end), k)
  {
    var prefix := Prefix(turns, end);
    k := 0;
    if prefix == [] {
      return Err(NoTurns), k;
    }
    var offset := 0;
    var rolled := false;
    while offset < |prefix|
      invariant offset < |prefix| && LongerDoNotFit(prefix, offset, c) && rolled == (offset > 0)
    {
      k := offset;
      var visible := prefix[offset..];
      var messages := BuildMessages(c.system, visible, c.task);
      var tokens :=
        if c.counter.Some? then c.counter.value(messages) else Estimated(messages, c.charsPerToken);
      if tokens.None? {
        return Err(CountFailed), k;
      }
      assert tokens == Measured(prefix, offset, c);
      if tokens.value <= c.limit {
        SelectsIsDetermined(prefix, offset, offset, c);
        return Ok(Window(visible, visible[0].index, |visible|, rolled)), k;
      }
      if |visible| <= 1 {
        SelectsIsDetermined(prefix, offset, offset, c);
        return Ok(Window(visible, visible[0].index, 1, rolled)), k;
      }
      offset := offset + 1;
      rolled := true;
    }
    assert false;
  }

  /** At most one suffix is selected, no longer one fits, and counting has not failed. */
  lemma SelectsIsDetermined(turns: seq<Turn>, k: nat, j: nat, c: SelectContext)
    requires Selects(turns, k, c)
    ensures Selects(turns, j, c) ==> j == k
    ensures j < |turns| && Fits(turns, j, c) ==> |turns[j..]| <= |turns[k..]|
    ensures !CountingFails(turns, c)
  {
    if Selects(turns, j, c) {
      assert j < k ==> Over(turns, j, c);
      assert k < j ==> Over(turns, k, c);
    }
    if CountingFails(turns, c) {
      var f :| 0 <= f < |turns| && LongerDoNotFit(turns, f, c) && Measured(turns, f, c).None?;
      var _ := Over(turns, if f < k then f else k, c);
    }
  }

  // ---------------------------------------------------------------- trimming

  datatype TaskParams = TaskParams(end: int, turnCount: int, start: int, count: int, rolled: bool)

  datatype Runtime = Runtime(
    system: string, turns: seq<Turn>, limit: int, charsPerToken: real,
    counter: Counter, render: TaskParams -> string)

  datatype State = State(visible: seq<Turn>, task: string, start: int, count: nat, rolled: bool)

  function SafeTokenCount(rt: Runtime, messages: seq<Message>): Option<int> {
    rt.counter(messages).Or(Estimated(messages, rt.charsPerToken))
  }

  function StateMessages(rt: Runtime, s: State): seq<Message> {
    Messages(rt.system, s.visible, s.task)
  }

  predicate TooLong(rt: Runtime, s: State) {
    var size := SafeTokenCount(rt, StateMessages(rt, s));
    size.Some? && size.value > rt.limit
  }

  predicate Affordable(rt: Runtime, s: State) {
    var size := SafeTokenCount(rt, StateMessages(rt, s));
    size.Some? && size.value <= rt.limit
  }

  /** The state without its first `d` turns; its classification prompt is written again. */
  function Without(rt: Runtime, s: State, end: int, turnCount: int, d: nat): State
    requires d == 0 || d < |s.visible|
  {
    if d == 0 then s
    else
      var start, count := s.visible[d].index, |s.visible| - d;
      State(s.visible[d..], rt.render(TaskParams(end, turnCount, start, count, true)), start, count, true)
  }

  /** Every state with fewer than `d` turns dropped is too long. */
  predicate TrimmedFor(rt: Runtime, s: State, end: int, turnCount: int, d: nat) {
    && (d == 0 || d < |s.visible|)
    && forall j :: 0 <= j < d ==> TooLong(rt, Without(rt, s, end, turnCount, j))
  }

  lemma TrimmedOneMore(rt: Runtime, s: State, end: int, turnCount: int, d: nat)
    requires TrimmedFor(rt, s, end, turnCount, d) && d + 1 < |s.visible|
    requires TooLong(rt, Without(rt, s, end, turnCount, d))
    ensures TrimmedFor(rt, s, end, turnCount, d + 1)
    ensures var t, u := Without(rt, s, end, turnCount, d), Without(rt, s, end, turnCount, d + 1);
            && u.visible == t.visible[1..] && u.start == t.visible[1].index
            && u.count == |u.visible| && u.rolled
            && u.task == rt.render(TaskParams(end, turnCount, u.start, u.count, true))
  {
  }

  /** Dropping `d` turns is what it takes, or counting raises then. */
  predicate TrimsTo(
    rt: Runtime, s: State, end: int, turnCount: int, d: nat, r: Option<(State, seq<Message>)>)
  {
    && TrimmedFor(rt, s, end, turnCount, d)
    && var t := Without(rt, s, end, turnCount, d);
       if r.Some? then r.value == (t, StateMessages(rt, t)) && (|t.visible| <= 1 || Affordable(rt, t))
       else |t.visible| > 1 && SafeTokenCount(rt, StateMessages(rt, t)).None?
  }

  method TrimRollingWindow(rt: Runtime, s: State, end: int, turnCount: int)
    returns (r: Option<(State, seq<Message>)>)
    ensures exists d: nat :: TrimsTo(rt, s, end, turnCount, d, r)
  {
    var visible, task, start, rolled := s.visible, s.task, s.start, s.rolled;
    var count: nat := s.count;
    var messages := BuildMessages(rt.system, visible, task);
    ghost var d: nat := 0;
    while |visible| > 1
      invariant TrimmedFor(rt, s, end, turnCount, d) && |visible| + d == |s.visible|
      invariant State(visible, task, start, count, rolled) == Without(rt, s, end, turnCount, d)
      invariant messages == Messages(rt.system, visible, task)
      decreases |visible|
    {
      var measured := SafeTokenCount(rt, messages);
      if measured.None? {
        assert TrimsTo(rt, s, end, turnCount, d, None);
        return None;
      }
      if measured.value <= rt.limit {
        break;
      }
      TrimmedOneMore(rt, s, end, turnCount, d);
      visible := visible[1..];
      rolled := true;
      start := visible[0].index;
      count := |visible|;
      task := rt.render(TaskParams(end, turnCount, start, count, rolled));
      messages := BuildMessages(rt.system, visible, task);
      d := d + 1;
    }
    r := Some((State(visible, task, start, count, rolled), messages));
    assert TrimsTo(rt, s, end, turnCount, d, r);
  }

  /** Counting raises after some turns have been dropped, while trimming or after it. */
  predicate TrimFailsAt(rt: Runtime, s: State, end: int, turnCount: int, d: nat) {
    && TrimmedFor(rt, s, end, turnCount, d)
    && SafeTokenCount(rt, StateMessages(rt, Without(rt, s, end, turnCount, d))).None?
  }

  lemma TrimFailsExactly(
    rt: Runtime, s: State, end: int, turnCount: int, d: nat, r: Option<(State, seq<Message>)>)
    requires TrimsTo(rt, s, end, turnCount, d, r)
    ensures (exists e: nat :: TrimFailsAt(rt, s, end, turnCount, e))
            <==> r.None? || SafeTokenCount(rt, r.value.1).None?
  {
    if r.None? || SafeTokenCount(rt, r.value.1).None? {
      assert TrimFailsAt(rt, s, end, turnCount, d);
    } else {
      forall e: nat ensures !TrimFailsAt(rt, s, end, turnCount, e) {
        if TrimmedFor(rt, s, end, turnCount, e) {
          LaterIsNotTrimmed(rt, s, end, turnCount, d, e, r);
        }
      }
    }
  }

  lemma LaterIsNotTrimmed(
    rt: Runtime, s: State, end: int, turnCount: int, d: nat, e: nat, r: Option<(State, seq<Message>)>)
    requires TrimsTo(rt, s, end, turnCount, d, r) && r.Some? && TrimmedFor(rt, s, end, turnCount, e)
    ensures e <= d
    ensures e < d ==> SafeTokenCount(rt, StateMessages(rt, Without(rt, s, end, turnCount, e))).Some?
  {
    var _ := TooLong(rt, Without(rt, s, end, turnCount, if e < d then e else d));
  }

  // ---------------------------------------------------------------- one step

  datatype Prepared = Prepared(
    visible: seq<Turn>, start: int, count: nat, rolled: bool, messages: seq<Message>, promptTokens: int)

  /** The classification prompt for the last `count` of the turns. */
  function TaskFor(rt: Runtime, turns: seq<Turn>, end: int, turnCount: int, count: nat): string
    requires 1 <= count <= |turns|
  {
    rt.render(TaskParams(end, turnCount, turns[|turns| - count].index, count, count < |turns|))
  }

  function Sizing(rt: Runtime, end: int, turnCount: int): SelectContext {
    SelectContext(
      rt.system, rt.render(TaskParams(end, turnCount, 1, end, end > 1)), rt.limit,
      Some(rt.counter), rt.charsPerToken)
  }

  /** The last `count` turns were found too long, with the sizing task or with their own. */
  predicate Rejected(rt: Runtime, turns: seq<Turn>, end: int, turnCount: int, count: nat)
    requires 1 <= count <= |turns|
  {
    var own := Messages(rt.system, turns[|turns| - count..], TaskFor(rt, turns, end, turnCount, count));
    || Over(turns, |turns| - count, SelectContext(
              rt.system, rt.render(TaskParams(end, turnCount, 1, end, end > 1)), rt.limit, Some(rt.counter),
              rt.charsPerToken))
    || (SafeTokenCount(rt, own).Some? && SafeTokenCount(rt, own).value > rt.limit)
  }

  /** What a prepared step promises. */
  predicate GoodStep(rt: Runtime, turns: seq<Turn>, end: int, turnCount: int, p: Prepared) {
    && 1 <= p.count <= |turns|
    && p.visible == turns[|turns| - p.count..]
    && p.start == p.visible[0].index
    && (p.rolled <==> p.count < |turns|)
    && p.messages == Messages(rt.system, p.visible, TaskFor(rt, turns, end, turnCount, p.count))
    && SafeTokenCount(rt, p.messages) == Some(p.promptTokens)
    && (p.count > 1 ==> p.promptTokens <= rt.limit)
    && (forall m :: p.count < m <= |turns| ==> Rejected(rt, turns, end, turnCount, m))
  }

  /** Counting raises while the window is selected, or after that. */
  ghost predicate PreparingFails(rt: Runtime, turns: seq<Turn>, end: int, turnCount: int) {
    || CountingFails(turns, Sizing(rt, end, turnCount))
    || exists k: nat, d: nat ::
         && Selects(turns, k, Sizing(rt, end, turnCount))
         && TrimFailsAt(rt, Selected(rt, turns, end, turnCount, k), end, turnCount, d)
  }

  method PrepareRollingStep(rt: Runtime, end: int, turnCount: int) returns (r: Result<Prepared, ReplayError>)
    ensures r == Err(NoTurns) <==> Prefix(rt.turns, end) == []
    ensures r == Err(CountFailed) <==> PreparingFails(rt, Prefix(rt.turns, end), end, turnCount)
    ensures r.Ok? ==> GoodStep(rt, Prefix(rt.turns, end), end, turnCount, r.value)
  {
    ghost var turns := Prefix(rt.turns, end);
    var selected, k := SelectWindowTurns(rt.turns, end, Sizing(rt, end, turnCount));
    if selected.Err? {
      assert selected.error.NoTurns? || selected.error.CountFailed?;
      NothingSelected(rt, turns, end, turnCount);
      return Err(selected.error);
    }
    var w := selected.value;
    var task := rt.render(TaskParams(end, turnCount, w.start, w.count, w.rolled));
    var s := State(w.visible, task, w.start, w.count, w.rolled);
    assert s == Selected(rt, turns, end, turnCount, k);
    var trimmed := TrimRollingWindow(rt, s, end, turnCount);
    ghost var d: nat :| TrimsTo(rt, s, end, turnCount, d, trimmed);
    FailureIsExact(rt, turns, end, turnCount, k, d, trimmed);
    if trimmed.None? {
      return Err(CountFailed);
    }
    var t, messages := trimmed.value.0, trimmed.value.1;
    var tokens := SafeTokenCount(rt, messages);
    if tokens.None? {
      return Err(CountFailed);
    }
    r := Ok(Prepared(t.visible, t.start, t.count, t.rolled, messages, tokens.value));
    StepIsGood(rt, turns, end, turnCount, k, d, t, r.value);
  }

  lemma NothingSelected(rt: Runtime, turns: seq<Turn>, end: int, turnCount: int)
    requires turns == [] || CountingFails(turns, Sizing(rt, end, turnCount))
    ensures PreparingFails(rt, turns, end, turnCount) <==> turns != []
  {
  }

  lemma FailureIsExact(
    rt: Runtime, turns: seq<Turn>, end: int, turnCount: int, k: nat, d: nat,
    trimmed: Option<(State, seq<Message>)>)
    requires Selects(turns, k, Sizing(rt, end, turnCount))
    requires TrimsTo(rt, Selected(rt, turns, end, turnCount, k), end, turnCount, d, trimmed)
    ensures PreparingFails(rt, turns, end, turnCount)
            <==> trimmed.None? || SafeTokenCount(rt, trimmed.value.1).None?
  {
    TrimFailsExactly(rt, Selected(rt, turns, end, turnCount, k), end, turnCount, d, trimmed);
    forall j: nat ensures Selects(turns, j, Sizing(rt, end, turnCount)) ==> j == k {
      SelectsIsDetermined(turns, k, j, Sizing(rt, end, turnCount));
    }
    SelectsIsDetermined(turns, k, k, Sizing(rt, end, turnCount));
  }

  /** Selecting and then trimming. */
  lemma StepIsGood(
    rt: Runtime, turns: seq<Turn>, end: int, turnCount: int, k: nat, d: nat, t: State, p: Prepared)
    requires Selects(turns, k, Sizing(rt, end, turnCount))
    requires TrimmedFor(rt, Selected(rt, turns, end, turnCount, k), end, turnCount, d)
    requires t == Without(rt, Selected(rt, turns, end, turnCount, k), end, turnCount, d)
    requires p == Prepared(t.visible, t.start, t.count, t.rolled, StateMessages(rt, t), p.promptTokens)
    requires SafeTokenCount(rt, p.messages) == Some(p.promptTokens)
    requires |t.visible| <= 1 || Affordable(rt, t)
    ensures GoodStep(rt, turns, end, turnCount, p)
  {
    TrimsSelected(rt, turns, end, turnCount, k, d);
    SelectedShape(rt, turns, end, turnCount, k + d);
    forall m | p.count < m <= |turns| ensures Rejected(rt, turns, end, turnCount, m) {
      LongerIsRejected(rt, turns, end, turnCount, k, k + d, m);
    }
  }

  /** What the state at offset `i` shows and says. */
  lemma SelectedShape(rt: Runtime, turns: seq<Turn>, end: int, turnCount: int, i: nat)
    requires i < |turns|
    ensures var t := Selected(rt, turns, end, turnCount, i);
            && 1 <= t.count == |t.visible| <= |turns| && t.visible == turns[|turns| - t.count..]
            && t.start == t.visible[0].index && (t.rolled <==> t.count < |turns|)
            && StateMessages(rt, t) == Messages(rt.system, t.visible, TaskFor(rt, turns, end, turnCount, t.count))
  {
  }

  lemma LongerIsRejected(
    rt: Runtime, turns: seq<Turn>, end: int, turnCount: int, k: nat, i: nat, m: nat)
    requires k <= i < |turns| && |turns| - i < m <= |turns|
    requires Selects(turns, k, Sizing(rt, end, turnCount))
    requires forall j :: k <= j < i ==> TooLong(rt, Selected(rt, turns, end, turnCount, j))
    ensures Rejected(rt, turns, end, turnCount, m)
  {
    var j := |turns| - m;
    if j >= k {
      assert TooLong(rt, Selected(rt, turns, end, turnCount, j));
    } else {
      assert Over(turns, j, Sizing(rt, end, turnCount));
    }
  }

  lemma TrimsSelected(rt: Runtime, turns: seq<Turn>, end: int, turnCount: int, k: nat, d: nat)
    requires k < |turns| && TrimmedFor(rt, Selected(rt, turns, end, turnCount, k), end, turnCount, d)
    ensures k + d < |turns|
    ensures Without(rt, Selected(rt, turns, end, turnCount, k), end, turnCount, d)
            == Selected(rt, turns, end, turnCount, k + d)
    ensures forall j :: k <= j < k + d ==> TooLong(rt, Selected(rt, turns, end, turnCount, j))
  {
    var s := Selected(rt, turns, end, turnCount, k);
    WithoutIs(rt, turns, end, turnCount, k, d);
    forall j | k <= j < k + d ensures TooLong(rt, Selected(rt, turns, end, turnCount, j)) {
      WithoutIs(rt, turns, end, turnCount, k, j - k);
      assert TooLong(rt, Without(rt, s, end, turnCount, j - k));
    }
  }

  function Selected(rt: Runtime, turns: seq<Turn>, end: int, turnCount: int, k: nat): State
    requires k < |turns|
  {
    var w := WindowAt(turns, k);
    State(w.visible, rt.render(TaskParams(end, turnCount, w.start, w.count, w.rolled)), w.start, w.count, w.rolled)
  }

  lemma WithoutIs(rt: Runtime, turns: seq<Turn>, end: int, turnCount: int, k: nat, d: nat)
    requires k + d < |turns|
    ensures Without(rt, Selected(rt, turns, end, turnCount, k), end, turnCount, d)
            == Selected(rt, turns, end, turnCount, k + d)
  {
    assert turns[k..][d..] == turns[k + d..];
  }

  /** For a session numbered by `parse_session_turns`: a step on the first `end` turns shows the turns from
      `end - count + 1` to `end`, and it has rolled exactly when it shows fewer than `end`. */
  lemma NumberedStep(rt: Runtime, end: nat, turnCount: int, p: Prepared)
    requires Numbered(rt.turns) && 1 <= end <= |rt.turns|
    requires GoodStep(rt, Prefix(rt.turns, end), end, turnCount, p)
    ensures p.start == end - p.count + 1 && (p.rolled <==> p.count < end)
    ensures forall i :: 0 <= i < p.count ==> p.visible[i] == rt.turns[p.start - 1 + i]
    ensures p.visible[|p.visible| - 1].index == end
  {
    var turns := rt.turns[..end];
    forall i | 0 <= i < p.count ensures p.visible[i] == rt.turns[end - p.count + i] {
      assert p.visible[i] == turns[end - p.count + i];
    }
    assert p.visible[0] == rt.turns[end - p.count];
  }

  /** The turns before `end`: all of them for a large one, and counted from the back for a negative one. */
  lemma PrefixIs(turns: seq<Turn>, end: int)
    ensures Prefix(turns, end) <= turns
    ensures |Prefix(turns, end)|
            == if end >= |turns| then |turns| else if end >= 0 then end
               else if -end <= |turns| then |turns| + end else 0
  {
  }

  function TurnChars(turns: seq<Turn>): nat {
    if turns == [] then 0
    else
      var last := turns[|turns| - 1];
      TurnChars(turns[..|turns| - 1]) + |last.user| + |last.assistant|
  }

  lemma {:induction false} CharsConcat(a: seq<Message>, b: seq<Message>)
    ensures Chars(a + b) == Chars(a) + Chars(b)
  {
    if a == [] {
      assert a + b == b;
    } else {
      CharsConcat(a[1..], b);
      assert (a + b)[0] == a[0] && (a + b)[1..] == a[1..] + b;
    }
  }

  lemma CharsOfOne(m: Message)
    ensures Chars([m]) == |m.content|
  {
    assert [m][1..] == [];
  }

  lemma {:induction false} DialogueChars(turns: seq<Turn>)
    ensures Chars(Dialogue(turns)) == TurnChars(turns)
  {
    if turns != [] {
      var init, last := turns[..|turns| - 1], turns[|turns| - 1];
      DialogueChars(init);
      var user, assistant := Message("user", last.user), Message("assistant", last.assistant);
      assert [user, assistant] == [user] + [assistant];
      CharsConcat(Dialogue(init), [user, assistant]);
      CharsConcat([user], [assistant]);
      CharsOfOne(user);
      CharsOfOne(assistant);
    }
  }

  /** The estimate counts the characters of the system prompt, of every turn, and of the classification
      prompt. */
  lemma EstimateCountsAll(system: string, turns: seq<Turn>, task: string, charsPerToken: real)
    ensures Chars(Messages(system, turns, task)) == |system| + TurnChars(turns) + |task|
    ensures charsPerToken != 0.0 ==>
              Estimated(Messages(system, turns, task), charsPerToken)
              == Some(TokensOf(|system| + TurnChars(turns) + |task|, charsPerToken))
    ensures charsPerToken == 0.0 ==> Estimated(Messages(system, turns, task), charsPerToken) == None
  {
    var first, last := [Message("system", system)], [Message("user", task)];
    CharsConcat(first + Dialogue(turns), last);
    CharsConcat(first, Dialogue(turns));
    CharsOfOne(Message("system", system));
    CharsOfOne(Message("user", task));
    DialogueChars(turns);
  }

  /** A counter that raises is replaced by the estimate, so that once a window is selected nothing fails any
      more, unless the estimate divides by zero. */
  lemma TrimmingCounts(rt: Runtime, s: State, end: int, turnCount: int, d: nat, messages: seq<Message>)
    ensures rt.counter(messages).Some? ==> SafeTokenCount(rt, messages) == rt.counter(messages)
    ensures rt.counter(messages).None? ==> SafeTokenCount(rt, messages) == Estimated(messages, rt.charsPerToken)
    ensures rt.charsPerToken != 0.0 ==> SafeTokenCount(rt, messages).Some?
    ensures rt.charsPerToken != 0.0 ==> !TrimFailsAt(rt, s, end, turnCount, d)
  {
  }
}
