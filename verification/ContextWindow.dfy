/** The judged window of a transcript: `selectWindow` and `newestModeratedAssistant`
    (workspace/moderator/src/context.ts). */
module ContextWindow {
  import opened Base
  import opened Text
  import opened Context

  datatype Window = Window(response: string, prompts: seq<string>, toolActivity: seq<string>)

  const TOOL_OUTPUT_CHARS := 1024

  function Truncated(text: string): string {
    if |text| <= TOOL_OUTPUT_CHARS then text else text[..TOOL_OUTPUT_CHARS] + "\n[truncated]"
  }

  function ToolLine(p: Part): seq<string> {
    if p.kind.ToolPart? && p.tool.Some? then
      [p.tool.value + " input=" + p.inputText + " output=" + Truncated(p.outputText)]
    else []
  }

  function Reverse<T>(s: seq<T>): seq<T> {
    if s == [] then [] else Reverse(s[1..]) + [s[0]]
  }

  function ToolLines(parts: seq<Part>): seq<string> {
    if parts == [] then [] else ToolLine(parts[0]) + ToolLines(parts[1..])
  }

  function Prompt(m: Message): string {
    var text := Trim(AssistantText(m));
    if |text| > 0 then text else EMPTY_USER_PROMPT
  }

  function Prompts(users: seq<Message>): seq<string> {
    if users == [] then [] else [Prompt(users[0])] + Prompts(users[1..])
  }

  function Activity(assistants: seq<Message>): seq<string> {
    if assistants == [] then []
    else ToolLines(Reverse(assistants[0].parts)) + Activity(assistants[1..])
  }

  function Texts(assistants: seq<Message>): seq<string> {
    if assistants == [] then []
    else
      var text := AssistantText(assistants[0]);
      (if |text| > 0 then [text] else []) + Texts(assistants[1..])
  }

  // ---------------------------------------------------------------- what the window of a chain is

  /** The messages of a parent chain that are not skipped. */
  function Kept(chain: seq<Message>): seq<Message> {
    if chain == [] then []
    else (if Skipped(chain[0]) then [] else [chain[0]]) + Kept(chain[1..])
  }

  /** The longest prefix of messages with a role. */
  function Leading(ms: seq<Message>, role: Role): seq<Message> {
    if ms != [] && ms[0].role == role then [ms[0]] + Leading(ms[1..], role) else []
  }

  function Assistants(chain: seq<Message>): seq<Message> {
    Leading(Kept(chain), Assistant)
  }

  function Users(chain: seq<Message>): seq<Message> {
    Leading(Kept(chain)[LeadingLength(Kept(chain), Assistant)..], User)
  }

  function LeadingLength(ms: seq<Message>, role: Role): (n: nat)
    ensures n == |Leading(ms, role)| <= |ms|
  {
    if ms != [] && ms[0].role == role then 1 + LeadingLength(ms[1..], role) else 0
  }

  /** The leading assistants of the kept messages are judged; the run of users after them, oldest
      first, are the prompts. */
  function WindowOf(chain: seq<Message>): Window {
    var prompts := Reverse(Prompts(Users(chain)));
    Window(
      Join(Texts(Assistants(chain)), "\n\n"),
      if prompts == [] then [EMPTY_USER_PROMPT] else prompts,
      Activity(Assistants(chain)))
  }

  predicate KeptAs(m: Message, role: Role) {
    !Skipped(m) && m.role == role
  }

  predicate HasUser(chain: seq<Message>) {
    exists m <- chain :: KeptAs(m, User)
  }

  /** The window is complete: the chain ends, or an assistant precedes the prompts. */
  predicate Closed(chain: seq<Message>, next: Option<Message>) {
    next.None? || (KeptAs(next.value, Assistant) && HasUser(chain))
  }

  /** The walk went over `chain` and stopped before `next`, at the first closing or way back. */
  ghost predicate Windowed(start: Message, byID: Index, chain: seq<Message>, next: Option<Message>) {
    && Walk(start, byID, chain, next)
    && NoRepeat(chain)
    && (forall i :: 0 <= i < |chain| ==> !Closed(chain[..i], Some(chain[i])))
    && (Returns(chain, next) || Closed(chain, next))
  }

  ghost predicate Selects(start: Message, byID: Index, r: Result<Window, Id>) {
    exists chain: seq<Message>, next: Option<Message> ::
      Windowed(start, byID, chain, next)
      && r == if Returns(chain, next) then Err(Key(next.value)) else Ok(WindowOf(chain))
  }

  // ---------------------------------------------------------------- the loops

  lemma {:induction false} KeptConcat(a: seq<Message>, b: seq<Message>)
    ensures Kept(a + b) == Kept(a) + Kept(b)
  {
    if a == [] {
      assert a + b == b;
    } else {
      KeptConcat(a[1..], b);
      TailOfConcat(a, b);
      ConcatAssociates(if Skipped(a[0]) then [] else [a[0]], Kept(a[1..]), Kept(b));
    }
  }

  lemma KeptAppend(a: seq<Message>, m: Message)
    ensures Kept(a + [m]) == Kept(a) + if Skipped(m) then [] else [m]
  {
    KeptConcat(a, [m]);
    assert [m][1..] == [];
    assert Kept([m]) == (if Skipped(m) then [] else [m]) + Kept([]);
  }

  lemma {:induction false} LeadingAll(a: seq<Message>, b: seq<Message>, role: Role)
    requires forall m <- a :: m.role == role
    requires b != [] ==> b[0].role != role
    ensures Leading(a + b, role) == a
  {
    if a != [] {
      LeadingAll(a[1..], b, role);
      assert (a + b)[1..] == a[1..] + b;
    } else {
      assert a + b == b;
    }
  }

  /** The kept messages split into the two runs that the loops collect. */
  ghost predicate Collected(chain: seq<Message>, assistants: seq<Message>, users: seq<Message>) {
    && Kept(chain) == assistants + users
    && (forall m <- assistants :: m.role == Assistant)
    && (forall m <- users :: m.role == User)
  }

  lemma CollectedWindow(chain: seq<Message>, assistants: seq<Message>, users: seq<Message>)
    requires Collected(chain, assistants, users)
    ensures Assistants(chain) == assistants && Users(chain) == users
  {
    LeadingAll(assistants, users, Assistant);
    assert Kept(chain)[|assistants|..] == users;
    LeadingAll(users, [], User);
    assert users + [] == users;
  }

  lemma {:induction false} KeptIsFilter(chain: seq<Message>, m: Message)
    ensures m in Kept(chain) <==> m in chain && !Skipped(m)
  {
    if chain != [] {
      KeptIsFilter(chain[1..], m);
      assert chain == [chain[0]] + chain[1..];
    }
  }

  lemma HasUserKept(chain: seq<Message>, m: Message)
    requires m in Kept(chain) && m.role == User
    ensures HasUser(chain)
  {
    KeptIsFilter(chain, m);
  }

  lemma AllGrow(ms: seq<Message>, m: Message, role: Role)
    requires (forall x <- ms :: x.role == role) && m.role == role
    ensures forall x <- ms + [m] :: x.role == role
  {
  }

  lemma CollectedGrows(chain: seq<Message>, assistants: seq<Message>, users: seq<Message>, m: Message)
    requires Collected(chain, assistants, users)
    requires Skipped(m) || m.role == User || users == []
    ensures Collected(
              chain + [m],
              if KeptAs(m, Assistant) then assistants + [m] else assistants,
              if KeptAs(m, User) then users + [m] else users)
  {
    KeptAppend(chain, m);
    if Skipped(m) {
      assert Kept(chain) + [] == Kept(chain);
    } else if m.role == User {
      AllGrow(users, m, User);
      ConcatAssociates(assistants, users, [m]);
    } else {
      AllGrow(assistants, m, Assistant);
      assert assistants + [] == assistants && (assistants + [m]) + [] == assistants + [m];
    }
  }

  lemma {:induction false} ReverseAppend<T>(s: seq<T>, x: T)
    ensures Reverse(s + [x]) == [x] + Reverse(s)
  {
    if s == [] {
      assert [x][1..] == [];
    } else {
      ReverseAppend(s[1..], x);
      assert (s + [x])[1..] == s[1..] + [x];
    }
  }

  lemma {:induction false} PromptsAppend(users: seq<Message>, m: Message)
    ensures Prompts(users + [m]) == Prompts(users) + [Prompt(m)]
  {
    if users == [] {
      assert [m][1..] == [];
    } else {
      PromptsAppend(users[1..], m);
      assert (users + [m])[1..] == users[1..] + [m];
    }
  }

  lemma {:induction false} ActivityConcat(a: seq<Message>, b: seq<Message>)
    ensures Activity(a + b) == Activity(a) + Activity(b)
  {
    if a == [] {
      assert a + b == b;
    } else {
      ActivityConcat(a[1..], b);
      TailOfConcat(a, b);
      ConcatAssociates(ToolLines(Reverse(a[0].parts)), Activity(a[1..]), Activity(b));
    }
  }

  lemma ActivityAppend(ms: seq<Message>, m: Message)
    ensures Activity(ms + [m]) == Activity(ms) + ToolLines(Reverse(m.parts))
  {
    ActivityConcat(ms, [m]);
    assert [m][1..] == [];
    assert Activity([m]) == ToolLines(Reverse(m.parts)) + Activity([]);
  }

  lemma {:induction false} ToolLinesConcat(a: seq<Part>, b: seq<Part>)
    ensures ToolLines(a + b) == ToolLines(a) + ToolLines(b)
  {
    if a == [] {
      assert a + b == b;
    } else {
      ToolLinesConcat(a[1..], b);
      TailOfConcat(a, b);
      ConcatAssociates(ToolLine(a[0]), ToolLines(a[1..]), ToolLines(b));
    }
  }

  lemma ToolLinesAppend(parts: seq<Part>, p: Part)
    ensures ToolLines(parts + [p]) == ToolLines(parts) + ToolLine(p)
  {
    ToolLinesConcat(parts, [p]);
    assert [p][1..] == [];
    assert ToolLines([p]) == ToolLine(p) + ToolLines([]);
  }

  /** The tool calls of the judged assistants, each message's calls newest first. */
  method CollectActivity(assistants: seq<Message>) returns (activity: seq<string>)
    ensures activity == Activity(assistants)
  {
    activity := [];
    for i := 0 to |assistants|
      invariant activity == Activity(assistants[..i])
    {
      var parts := Reverse(assistants[i].parts);
      for k := 0 to |parts|
        invariant activity == Activity(assistants[..i]) + ToolLines(parts[..k])
      {
        ToolLinesAppend(parts[..k], parts[k]);
        assert parts[..k + 1] == parts[..k] + [parts[k]];
        ConcatAssociates(Activity(assistants[..i]), ToolLines(parts[..k]), ToolLine(parts[k]));
        activity := activity + ToolLine(parts[k]);
      }
      assert parts[..|parts|] == parts;
      ActivityAppend(assistants[..i], assistants[i]);
      assert assistants[..i + 1] == assistants[..i] + [assistants[i]];
    }
    assert assistants[..|assistants|] == assistants;
  }

  /** The walk is under way: it went over `chain`, and nothing closed the window so far. */
  ghost predicate UnderWay(
    start: Message, byID: Index, visited: set<Id>, chain: seq<Message>, current: Option<Message>)
  {
    && Walk(start, byID, chain, current)
    && NoRepeat(chain)
    && visited == KeysOf(chain) <= KnownIds(start, byID)
    && (forall i :: 0 <= i < |chain| ==> !Closed(chain[..i], Some(chain[i])))
  }

  lemma WalksOn(start: Message, byID: Index, visited: set<Id>, chain: seq<Message>, m: Message)
    requires UnderWay(start, byID, visited, chain, Some(m)) && Key(m) !in visited
    requires !Closed(chain, Some(m))
    ensures UnderWay(start, byID, visited + {Key(m)}, chain + [m], ParentOf(m, byID))
    ensures KnownIds(start, byID) - (visited + {Key(m)}) < KnownIds(start, byID) - visited
  {
    WalkStays(start, byID, chain, m);
    WalkGrows(start, byID, chain, m);
    StillOpen(chain, m);
    NoRepeatGrows(chain, m);
    KeysOfGrow(chain, m);
    assert Key(m) in KnownIds(start, byID) - visited;
  }

  lemma NoRepeatGrows(chain: seq<Message>, m: Message)
    requires NoRepeat(chain) && Key(m) !in KeysOf(chain)
    ensures NoRepeat(chain + [m])
  {
    var longer := chain + [m];
    forall i, j | 0 <= i < j < |longer| ensures Key(longer[i]) != Key(longer[j]) {
      if j == |chain| {
        assert longer[i] in chain;
      }
    }
  }

  lemma KeysOfGrow(chain: seq<Message>, m: Message)
    ensures KeysOf(chain + [m]) == KeysOf(chain) + {Key(m)}
  {
    forall id | id in KeysOf(chain) + {Key(m)} ensures id in KeysOf(chain + [m]) {
      if id == Key(m) {
        assert m in chain + [m];
      } else {
        var x :| x in chain && Key(x) == id;
        assert x in chain + [m];
      }
    }
  }

  /** The first loop: over the judged assistants, up to the newest prompt. */
  method CollectAssistants(start: Message, byID: Index)
    returns (assistants: seq<Message>, visited: set<Id>, current: Option<Message>, ghost chain: seq<Message>)
    ensures UnderWay(start, byID, visited, chain, current)
    ensures Collected(chain, assistants, []) && !HasUser(chain)
    ensures current.Some? ==> Key(current.value) in visited || KeptAs(current.value, User)
  {
    visited, assistants, current, chain := {}, [], Some(start), [];
    while current.Some?
      invariant UnderWay(start, byID, visited, chain, current)
      invariant Collected(chain, assistants, []) && !HasUser(chain)
      decreases KnownIds(start, byID) - visited, current.Some?
    {
      var m := current.value;
      if Key(m) in visited || (!Skipped(m) && m.role == User) {
        break;
      }
      WalksOn(start, byID, visited, chain, m);
      CollectedGrows(chain, assistants, [], m);
      visited := visited + {Key(m)};
      if !Skipped(m) && m.role == Assistant {
        assistants := assistants + [m];
      }
      chain := chain + [m];
      current := ParentOf(m, byID);
    }
  }

  /** The second loop: over the run of prompts, up to the assistant before them. */
  method CollectPrompts(
    start: Message, byID: Index, visited0: set<Id>, current0: Option<Message>,
    ghost assistants: seq<Message>, ghost chain0: seq<Message>)
    returns (prompts: seq<string>, repeated: Option<Id>,
             ghost users: seq<Message>, ghost chain: seq<Message>, ghost current: Option<Message>)
    requires UnderWay(start, byID, visited0, chain0, current0) && Collected(chain0, assistants, [])
    requires current0.Some? ==> Key(current0.value) !in visited0 && KeptAs(current0.value, User)
    ensures prompts == Reverse(Prompts(users)) && Collected(chain, assistants, users)
    ensures Windowed(start, byID, chain, current)
    ensures repeated == if Returns(chain, current) then Some(Key(current.value)) else None
  {
    var visited, at := visited0, current0;
    prompts, users, chain := [], [], chain0;
    while at.Some?
      invariant UnderWay(start, byID, visited, chain, at) && Collected(chain, assistants, users)
      invariant prompts == Reverse(Prompts(users))
      invariant users == [] && at.Some? ==> Key(at.value) !in visited && KeptAs(at.value, User)
      decreases KnownIds(start, byID) - visited, at.Some?
    {
      var m := at.value;
      if Key(m) in visited {
        return prompts, Some(Key(m)), users, chain, at;
      }
      if !Skipped(m) && m.role != User {
        assert users[0] in Kept(chain);
        HasUserKept(chain, users[0]);
        return prompts, None, users, chain, at;
      }
      CollectedGrows(chain, assistants, users, m);
      WalksOn(start, byID, visited, chain, m);
      if !Skipped(m) {
        PromptsAppend(users, m);
        ReverseAppend(Prompts(users), Prompt(m));
        prompts := [Prompt(m)] + prompts;
        users := users + [m];
      }
      visited := visited + {Key(m)};
      chain := chain + [m];
      at := ParentOf(m, byID);
    }
    repeated, current := None, at;
  }

  /** The window of the parent chain, or the id at which the walk came back to itself. */
  method SelectWindow(assistant: Option<Message>, messages: seq<Message>) returns (r: Result<Window, Id>)
    ensures assistant.None? ==> r == Ok(Window("", [EMPTY_USER_PROMPT], []))
    ensures assistant.Some? ==> Selects(assistant.value, ByID(messages), r)
  {
    if assistant.None? {
      return Ok(Window("", [EMPTY_USER_PROMPT], []));
    }
    var start, byID := assistant.value, ByID(messages);
    var assistants, visited, current, chain := CollectAssistants(start, byID);
    if current.Some? && Key(current.value) in visited {
      assert Windowed(start, byID, chain, current);
      return Err(Key(current.value));
    }
    var prompts, repeated, users, walked, next :=
      CollectPrompts(start, byID, visited, current, assistants, chain);
    assert Windowed(start, byID, walked, next);
    if repeated.Some? {
      return Err(repeated.value);
    }
    CollectedWindow(walked, assistants, users);
    var activity := CollectActivity(assistants);
    r := Ok(Window(
              Join(Texts(assistants), "\n\n"),
              if |prompts| > 0 then prompts else [EMPTY_USER_PROMPT],
              activity));
  }

  lemma StillOpen(chain: seq<Message>, m: Message)
    requires forall i :: 0 <= i < |chain| ==> !Closed(chain[..i], Some(chain[i]))
    requires !Closed(chain, Some(m))
    ensures forall i :: 0 <= i < |chain + [m]| ==> !Closed((chain + [m])[..i], Some((chain + [m])[i]))
  {
    forall i | 0 <= i < |chain + [m]| ensures !Closed((chain + [m])[..i], Some((chain + [m])[i])) {
      assert (chain + [m])[..i] == chain[..i];
      if i == |chain| {
        assert chain[..i] == chain;
      }
    }
  }

  // ---------------------------------------------------------------- what the window means

  lemma {:induction false} LeadingCut(a: seq<Message>, b: seq<Message>, role: Role)
    requires |Leading(a, role)| < |a| || b == [] || b[0].role != role
    ensures Leading(a + b, role) == Leading(a, role)
  {
    if a == [] {
      assert a + b == b;
    } else if a[0].role == role {
      LeadingCut(a[1..], b, role);
      TailOfConcat(a, b);
    }
  }

  lemma {:induction false} LeadingMisses(ms: seq<Message>, m: Message, role: Role)
    requires m in ms && m.role != role
    ensures |Leading(ms, role)| < |ms|
  {
    if ms[0].role == role {
      assert ms == [ms[0]] + ms[1..];
      LeadingMisses(ms[1..], m, role);
    }
  }

  /** The two leading runs end before an assistant that comes after a user. */
  lemma RunsStay(kept: seq<Message>, after: seq<Message>, u: Message)
    requires u in kept && u.role == User && after != [] && after[0].role == Assistant
    ensures Leading(kept + after, Assistant) == Leading(kept, Assistant)
    ensures LeadingLength(kept + after, Assistant) == LeadingLength(kept, Assistant)
    ensures Leading((kept + after)[LeadingLength(kept, Assistant)..], User)
            == Leading(kept[LeadingLength(kept, Assistant)..], User)
  {
    LeadingMisses(kept, u, Assistant);
    LeadingCut(kept, after, Assistant);
    SecondRunStays(kept, after, LeadingLength(kept, Assistant));
  }

  lemma SecondRunStays(kept: seq<Message>, after: seq<Message>, n: nat)
    requires n <= |kept| && after != [] && after[0].role != User
    ensures Leading((kept + after)[n..], User) == Leading(kept[n..], User)
  {
    assert (kept + after)[n..] == kept[n..] + after;
    LeadingCut(kept[n..], after, User);
  }

  /** What follows a closed window does not change it. */
  lemma ClosedWindowStays(chain: seq<Message>, rest: seq<Message>)
    requires HasUser(chain) && rest != [] && KeptAs(rest[0], Assistant)
    ensures WindowOf(chain + rest) == WindowOf(chain)
  {
    KeptConcat(chain, rest);
    var u :| u in chain && KeptAs(u, User);
    KeptIsFilter(chain, u);
    assert Kept(rest)[0] == rest[0];
    RunsStay(Kept(chain), Kept(rest), u);
    assert Assistants(chain + rest) == Assistants(chain) && Users(chain + rest) == Users(chain);
  }

  lemma WindowIsAPrefix(
    start: Message, byID: Index, whole: seq<Message>, chain: seq<Message>, next: Option<Message>)
    requires Consistent(start, byID) && Walk(start, byID, whole, None) && Windowed(start, byID, chain, next)
    ensures |chain| <= |whole| && chain == whole[..|chain|]
    ensures next == if |chain| < |whole| then Some(whole[|chain|]) else None
    ensures !Returns(chain, next)
  {
    ReturnsOnlyOnACycle(start, byID, whole, None);
    if |whole| < |chain| {
      WalkIsDetermined(start, byID, whole, None, chain, next);
      assert false;
    }
    if |chain| < |whole| {
      NotBackYet(whole, |chain|);
    }
    WalkIsDetermined(start, byID, chain, next, whole, None);
  }

  /** On a parent chain that ends, the window is the one defined on the whole chain. */
  lemma WindowOfAWholeChain(start: Message, byID: Index, whole: seq<Message>, r: Result<Window, Id>)
    requires Consistent(start, byID) && Walk(start, byID, whole, None) && Selects(start, byID, r)
    ensures r == Ok(WindowOf(whole))
  {
    var chain: seq<Message>, next: Option<Message> :|
      Windowed(start, byID, chain, next)
      && r == if Returns(chain, next) then Err(Key(next.value)) else Ok(WindowOf(chain));
    WindowIsAPrefix(start, byID, whole, chain, next);
    PrefixDecides(whole, chain, next);
  }

  lemma PrefixDecides(whole: seq<Message>, chain: seq<Message>, next: Option<Message>)
    requires |chain| <= |whole| && chain == whole[..|chain|] && Closed(chain, next)
    requires next == if |chain| < |whole| then Some(whole[|chain|]) else None
    ensures WindowOf(chain) == WindowOf(whole)
  {
    var rest := whole[|chain|..];
    assert whole == chain + rest;
    if rest == [] {
      assert whole == chain;
    } else {
      ClosedWindowStays(chain, rest);
    }
  }

  /** The walk fails only on messages that really are on a cycle of parent links. */
  lemma WindowFailsOnlyOnACycle(messages: seq<Message>, start: Message, r: Result<Window, Id>)
    requires DistinctIds(messages) && start in messages
    requires Selects(start, ByID(messages), r) && r.Err?
    ensures exists chain: seq<Message>, m: Message ::
              Walk(start, ByID(messages), chain, Some(m)) && m in chain && Key(m) == r.error
  {
    IndexFinds(messages, start);
    IndexKeys(messages);
    var chain: seq<Message>, next: Option<Message> :|
      Windowed(start, ByID(messages), chain, next)
      && r == if Returns(chain, next) then Err(Key(next.value)) else Ok(WindowOf(chain));
    ReturnsOnlyOnACycle(start, ByID(messages), chain, next);
    assert Walk(start, ByID(messages), chain, Some(next.value));
  }

  /** The walk fails exactly when no walk without a repeat completes the window before coming back. */
  lemma WindowFailsExactly(start: Message, byID: Index, r: Result<Window, Id>)
    requires Selects(start, byID, r)
    ensures r.Err? <==>
            forall chain, next ::
              Walk(start, byID, chain, next) && NoRepeat(chain) && Closed(chain, next) ==> Returns(chain, next)
  {
    var chain: seq<Message>, next: Option<Message> :|
      Windowed(start, byID, chain, next)
      && r == if Returns(chain, next) then Err(Key(next.value)) else Ok(WindowOf(chain));
    forall other, after |
      Walk(start, byID, other, after) && NoRepeat(other) && Closed(other, after) && Returns(chain, next)
      ensures Returns(other, after)
    {
      ClosingComesTooLate(start, byID, chain, next, other, after);
    }
  }

  lemma ClosingComesTooLate(
    start: Message, byID: Index, chain: seq<Message>, next: Option<Message>,
    other: seq<Message>, after: Option<Message>)
    requires Windowed(start, byID, chain, next) && Returns(chain, next)
    requires Walk(start, byID, other, after) && NoRepeat(other) && Closed(other, after)
    ensures Returns(other, after)
  {
    assert |other| < |chain| ==> !Closed(chain[..|other|], Some(chain[|other|]));
    if |other| < |chain| {
      WalkIsDetermined(start, byID, other, after, chain, next);
    } else {
      WalkIsDetermined(start, byID, chain, next, other, after);
      if |chain| < |other| {
        NotBackYet(other, |chain|);
      }
    }
  }

  lemma WindowIsLongest(
    start: Message, byID: Index, a: seq<Message>, na: Option<Message>, b: seq<Message>, nb: Option<Message>)
    requires Windowed(start, byID, a, na) && Windowed(start, byID, b, nb) && |a| <= |b|
    ensures a == b && na == nb
  {
    if |a| < |b| {
      assert !Closed(b[..|a|], Some(b[|a|]));
      NotBackYet(b, |a|);
    }
    WalkIsDetermined(start, byID, a, na, b, nb);
  }

  /** The specification of the window determines it. */
  lemma SelectsIsDetermined(start: Message, byID: Index, r: Result<Window, Id>, q: Result<Window, Id>)
    requires Selects(start, byID, r) && Selects(start, byID, q)
    ensures r == q
  {
    var a: seq<Message>, na: Option<Message> :|
      Windowed(start, byID, a, na) && r == if Returns(a, na) then Err(Key(na.value)) else Ok(WindowOf(a));
    var b: seq<Message>, nb: Option<Message> :|
      Windowed(start, byID, b, nb) && q == if Returns(b, nb) then Err(Key(nb.value)) else Ok(WindowOf(b));
    if |a| <= |b| {
      WindowIsLongest(start, byID, a, na, b, nb);
    } else {
      WindowIsLongest(start, byID, b, nb, a, na);
    }
  }

  lemma {:induction false} FirstUser(chain: seq<Message>, i: nat)
    requires i < |chain| && KeptAs(chain[i], User)
    requires forall k :: 0 <= k < i ==> !KeptAs(chain[k], User)
    ensures Users(chain) != [] && Users(chain)[0] == chain[i]
  {
    var before, rest := Kept(chain[..i]), Kept(chain[i..]);
    assert chain == chain[..i] + chain[i..];
    KeptConcat(chain[..i], chain[i..]);
    forall m <- before ensures m.role == Assistant {
      KeptIsFilter(chain[..i], m);
    }
    assert rest[0] == chain[i];
    LeadingAll(before, rest, Assistant);
    assert Kept(chain)[|before|..] == rest;
  }

  lemma NoUsers(chain: seq<Message>)
    requires !HasUser(chain)
    ensures Users(chain) == []
  {
    var kept := Kept(chain);
    forall m <- kept ensures m.role == Assistant {
      KeptIsFilter(chain, m);
    }
    LeadingAll(kept, [], Assistant);
    assert kept + [] == kept;
  }

  /** No message that counts as a real user is a compaction message. */
  ghost predicate UsersAreNotCompactions(start: Message, byID: Index) {
    forall walk, next, m ::
      Walk(start, byID, walk, next) && m in walk && IsRealUser(m) ==> !IsCompaction(m)
  }

  /** When no real user is a compaction message, the newest prompt is that of the real user ancestor,
      and the placeholder stands alone exactly when there is none. */
  lemma NewestPromptIsTheRealUsers(
    start: Message, byID: Index, w: Window, found: Result<Option<Message>, Id>)
    requires UsersAreNotCompactions(start, byID)
    requires Selects(start, byID, Ok(w)) && Finds(start, byID, IsRealUser, found)
    ensures found.Ok?
    ensures found.value.Some? ==> w.prompts[|w.prompts| - 1] == Prompt(found.value.value)
    ensures found.value.None? ==> w.prompts == [EMPTY_USER_PROMPT]
  {
    var chain: seq<Message>, next: Option<Message> :|
      Windowed(start, byID, chain, next)
      && Ok(w) == if Returns(chain, next) then Err(Key(next.value)) else Ok(WindowOf(chain));
    var walk: seq<Message>, after: Option<Message> :|
      Searched(start, byID, IsRealUser, walk, after)
      && found == if Returns(walk, after) then Err(Key(after.value)) else Ok(after);
    if HasUser(chain) {
      UserIsFound(start, byID, chain, next, walk, after);
    } else {
      NoUsers(chain);
      assert Searched(start, byID, IsRealUser, chain, None);
      SearchIsDetermined(start, byID, IsRealUser, walk, after, chain, None);
    }
  }

  lemma UserIsFound(
    start: Message, byID: Index, chain: seq<Message>, next: Option<Message>,
    walk: seq<Message>, after: Option<Message>)
    requires UsersAreNotCompactions(start, byID) && Walk(start, byID, chain, next) && NoRepeat(chain)
    requires HasUser(chain) && Searched(start, byID, IsRealUser, walk, after)
    ensures after.Some? && !Returns(walk, after)
    ensures WindowOf(chain).prompts[|WindowOf(chain).prompts| - 1] == Prompt(after.value)
  {
    var i := FirstUserIndex(chain);
    FirstUser(chain, i);
    WalkPrefix(start, byID, chain, next, i);
    NotBackYet(chain, i);
    forall m <- chain[..i] ensures !IsRealUser(m) {
      assert m in chain;
    }
    assert Searched(start, byID, IsRealUser, chain[..i], Some(chain[i]));
    SearchIsDetermined(start, byID, IsRealUser, walk, after, chain[..i], Some(chain[i]));
    assert Prompts(Users(chain))[0] == Prompt(chain[i]);
  }

  lemma FirstUserIndex(chain: seq<Message>) returns (i: nat)
    requires HasUser(chain)
    ensures i < |chain| && KeptAs(chain[i], User)
    ensures forall k :: 0 <= k < i ==> !KeptAs(chain[k], User)
  {
    i := 0;
    while !KeptAs(chain[i], User)
      invariant i < |chain|
      invariant forall k :: 0 <= k < i ==> !KeptAs(chain[k], User)
      decreases |chain| - i
    {
      var m :| m in chain && KeptAs(m, User);
      i := i + 1;
    }
  }

  // ---------------------------------------------------------------- the judged message

  function Newest(messages: seq<Message>): Option<Message> {
    if messages == [] then None
    else if messages[|messages| - 1].role == Assistant then Some(messages[|messages| - 1])
    else Newest(messages[..|messages| - 1])
  }

  method NewestModeratedAssistant(messages: seq<Message>) returns (r: Option<Message>)
    ensures r == Newest(messages)
  {
    var index := |messages|;
    assert messages[..index] == messages;
    while index > 0
      invariant 0 <= index <= |messages|
      invariant Newest(messages) == Newest(messages[..index])
    {
      index := index - 1;
      var message := messages[index];
      assert messages[..index + 1][..index] == messages[..index];
      if message.role != Assistant {
        continue;
      }
      return Some(message);
    }
    r := None;
  }

  /** The judged message is an assistant that no assistant follows. */
  lemma {:induction false} NewestIsLast(messages: seq<Message>)
    ensures Newest(messages).None? <==> forall m <- messages :: m.role == User
    ensures Newest(messages).Some? ==>
              exists i :: 0 <= i < |messages| && Newest(messages) == Some(messages[i])
                          && messages[i].role == Assistant
                          && forall k :: i < k < |messages| ==> messages[k].role == User
  {
    if messages != [] {
      var init := messages[..|messages| - 1];
      NewestIsLast(init);
      assert messages == init + [messages[|messages| - 1]];
      if messages[|messages| - 1].role == User && Newest(init).Some? {
        var i :| 0 <= i < |init| && Newest(init) == Some(init[i]) && init[i].role == Assistant
                 && forall k :: i < k < |init| ==> init[k].role == User;
        assert messages[i] == init[i];
      }
    }
  }

  // ---------------------------------------------------------------- what the window shows

  /** Reversing puts the last first. */
  lemma {:induction false} ReverseAt<T>(s: seq<T>, i: nat)
    requires i < |s|
    ensures |Reverse(s)| == |s| && Reverse(s)[i] == s[|s| - 1 - i]
  {
    if |s| > 1 {
      ReverseAt(s[1..], if i < |s| - 1 then i else 0);
    }
  }

  lemma {:induction false} ReverseLength<T>(s: seq<T>)
    ensures |Reverse(s)| == |s|
  {
    if s != [] {
      ReverseLength(s[1..]);
    }
  }

  /** A prompt for each user message of a run, in its order. */
  lemma {:induction false} PromptAt(users: seq<Message>, k: nat)
    requires k < |users|
    ensures |Prompts(users)| == |users| && Prompts(users)[k] == Prompt(users[k])
  {
    if k > 0 {
      PromptAt(users[1..], k - 1);
    } else if |users| > 1 {
      PromptAt(users[1..], 0);
    }
  }

  lemma {:induction false} LeadingIsPrefix(ms: seq<Message>, role: Role)
    ensures Leading(ms, role) <= ms
    ensures forall m <- Leading(ms, role) :: m.role == role
    ensures |Leading(ms, role)| < |ms| ==> ms[|Leading(ms, role)|].role != role
  {
    if ms != [] && ms[0].role == role {
      LeadingIsPrefix(ms[1..], role);
    }
  }

  /** The judged messages are assistants of the chain and the prompts are its users, none of them injected,
      synthetic or a compaction. */
  lemma WindowIsOfTheChain(chain: seq<Message>)
    ensures forall m <- Assistants(chain) :: m in chain && KeptAs(m, Assistant)
    ensures forall m <- Users(chain) :: m in chain && IsRealUser(m) && !IsCompaction(m)
  {
    var kept := Kept(chain);
    LeadingIsPrefix(kept, Assistant);
    var rest := kept[LeadingLength(kept, Assistant)..];
    LeadingIsPrefix(rest, User);
    forall m <- Assistants(chain) ensures m in chain && KeptAs(m, Assistant) {
      assert m in kept;
      KeptIsFilter(chain, m);
    }
    forall m <- Users(chain) ensures m in chain && IsRealUser(m) && !IsCompaction(m) {
      assert m in rest && m in kept;
      KeptIsFilter(chain, m);
    }
  }

  lemma {:induction false} TextsConcat(a: seq<Message>, b: seq<Message>)
    ensures Texts(a + b) == Texts(a) + Texts(b)
  {
    if a == [] {
      assert a + b == b;
    } else {
      TextsConcat(a[1..], b);
      TailOfConcat(a, b);
      var text := AssistantText(a[0]);
      ConcatAssociates(if |text| > 0 then [text] else [], Texts(a[1..]), Texts(b));
    }
  }

  lemma TextsOfOne(m: Message)
    ensures Texts([m]) == if AssistantText(m) == "" then [] else [AssistantText(m)]
  {
    assert [m][1..] == [];
  }

  /** The response is the text of the judged message; with more of them it is their texts with an empty line
      between, and a message without text adds nothing. */
  lemma ResponseIs(chain: seq<Message>, a: seq<Message>, m: Message)
    requires Assistants(chain) == a + [m]
    ensures Texts(a) == [] ==> WindowOf(chain).response == AssistantText(m)
    ensures AssistantText(m) == "" ==> WindowOf(chain).response == Join(Texts(a), "\n\n")
    ensures AssistantText(m) != "" && Texts(a) != [] ==>
              WindowOf(chain).response == Join(Texts(a), "\n\n") + "\n\n" + AssistantText(m)
  {
    TextsConcat(a, [m]);
    TextsOfOne(m);
    if AssistantText(m) == "" {
      assert Texts(a) + [] == Texts(a);
    } else if Texts(a) == [] {
      assert [] + [AssistantText(m)] == [AssistantText(m)];
    } else {
      JoinOfBoth(Texts(a), [AssistantText(m)], "\n\n");
    }
  }

  /** A prompt is the text of its message, or the placeholder when there is none. */
  lemma PromptIs(m: Message)
    ensures Prompt(m) == if AssistantText(m) == "" then EMPTY_USER_PROMPT else AssistantText(m)
  {
    StripBaresEnds(Join(TextsOf(m.parts), "\n"), IsSpace);
    StripBaresEnds(AssistantText(m), IsSpace);
  }

  /** The window shows the prompts of the run of users, the oldest first, or the placeholder alone when the
      chain has no such run. */
  lemma PromptsOfTheWindow(chain: seq<Message>)
    ensures Users(chain) == [] ==> WindowOf(chain).prompts == [EMPTY_USER_PROMPT]
    ensures Users(chain) != [] ==> WindowOf(chain).prompts == Reverse(Prompts(Users(chain)))
  {
    var users := Users(chain);
    if users != [] {
      PromptAt(users, 0);
    }
    ReverseLength(Prompts(users));
  }

  /** A tool line shows at most 1024 characters of output, unchanged, and says so when it shows fewer. */
  lemma OutputIsCut(text: string)
    ensures |text| <= 1024 ==> Truncated(text) == text
    ensures |text| > 1024 ==>
              |Truncated(text)| == 1036 && Truncated(text)[..1024] == text[..1024]
              && Truncated(text)[1024..] == "\n[truncated]"
  {
  }

  /** Tool calls are listed by name, input and output, and nothing else is. */
  lemma ToolLineIs(p: Part)
    ensures ToolLine(p) == [] <==> !p.kind.ToolPart? || p.tool.None?
    ensures p.kind.ToolPart? && p.tool.Some? && |p.outputText| <= 1024 ==>
              ToolLine(p) == [p.tool.value + " input=" + p.inputText + " output=" + p.outputText]
  {
  }
}
