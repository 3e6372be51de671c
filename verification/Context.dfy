/** Walks over the parent links of a transcript (workspace/moderator/src/context.ts). */
module Context {
  import opened Base
  import opened Text

  type Id = string

  datatype Role = User | Assistant

  datatype PartKind = TextPart | ToolPart | OtherPart

  datatype Part = Part(
    kind: PartKind,
    text: Option<string>,
    synthetic: bool,
    moderation: bool,
    compactionContinue: bool,
    tool: Option<string>,
    inputText: string,
    outputText: string)

  /** `marked` says that the marker expression for injected messages matches the text; `created` that the
      message has a creation time, and `failed` that it carries an error. */
  datatype Message = Message(
    id: Option<Id>,
    role: Role,
    parentID: Option<Id>,
    agent: Option<string>,
    mode: Option<string>,
    summary: bool,
    marked: bool,
    created: bool,
    finish: Option<string>,
    failed: bool,
    parts: seq<Part>)

  const EMPTY_USER_PROMPT := "Continue the unfinished work."

  function Key(m: Message): Id {
    if m.id.Some? then m.id.value else ""
  }

  function TextsOf(parts: seq<Part>): seq<string> {
    if parts == [] then []
    else
      var p := parts[0];
      (if p.kind.TextPart? && !p.synthetic && p.text.Some? then [p.text.value] else []) + TextsOf(parts[1..])
  }

  function AssistantText(m: Message): string {
    Trim(Join(TextsOf(m.parts), "\n"))
  }

  predicate IsSyntheticUser(m: Message) {
    m.role == User
    && (m.summary || exists p <- m.parts :: p.synthetic && (p.compactionContinue || p.moderation))
  }

  predicate IsInjectedUser(m: Message) {
    (m.role == User && exists p <- m.parts :: p.synthetic && p.moderation) || m.marked
  }

  predicate IsCompaction(m: Message) {
    m.summary || m.agent == Some("compaction") || m.mode == Some("compaction")
  }

  predicate Skipped(m: Message) {
    IsInjectedUser(m) || IsSyntheticUser(m) || IsCompaction(m)
  }

  predicate IsRealUser(m: Message) {
    m.role == User && !IsInjectedUser(m) && !IsSyntheticUser(m)
  }

  /** The messages that the moderator never judges, by their fields: those with the marker, the summaries
      and compactions, and user messages with a synthetic part of the moderator or of a compaction. */
  lemma SkippedInFields(m: Message)
    ensures Skipped(m) <==>
            || m.marked || m.summary || m.agent == Some("compaction") || m.mode == Some("compaction")
            || (m.role == User && exists p <- m.parts :: p.synthetic && (p.moderation || p.compactionContinue))
  {
  }

  /** A real user wrote the message: nothing marks it as injected, as a summary or as continued. */
  lemma RealUserInFields(m: Message)
    ensures IsRealUser(m) <==>
            && m.role == User && !m.marked && !m.summary
            && forall p <- m.parts :: p.synthetic ==> !p.moderation && !p.compactionContinue
  {
  }

  /** The parts that a message's text is made of: texts that nobody put there automatically. */
  predicate Spoken(p: Part) {
    p.kind.TextPart? && p.text.Some? && !p.synthetic
  }

  lemma TextsOfSpoken(a: seq<Part>, p: Part, b: seq<Part>)
    ensures TextsOf(a + [p] + b) == TextsOf(a) + (if Spoken(p) then [p.text.value] else []) + TextsOf(b)
  {
    TextsOfConcat(a + [p], b);
    TextsOfConcat(a, [p]);
    assert [p][1..] == [];
    assert TextsOf([p]) == (if Spoken(p) then [p.text.value] else []) + TextsOf([]);
  }

  /** A part that is not spoken changes nothing; the text of one spoken part is that part, trimmed; and no
      text begins or ends with white space. */
  lemma AssistantTextIs(m: Message, a: seq<Part>, p: Part, b: seq<Part>)
    requires m.parts == a + [p] + b
    ensures !Spoken(p) ==> AssistantText(m) == AssistantText(m.(parts := a + b))
    ensures Spoken(p) && a == b == [] ==> AssistantText(m) == Trim(p.text.value)
    ensures Trimmed(AssistantText(m))
  {
    TextsOfSpoken(a, p, b);
    StripBaresEnds(Join(TextsOf(m.parts), "\n"), IsSpace);
    if !Spoken(p) {
      TextsOfConcat(a, b);
      assert TextsOf(a) + [] + TextsOf(b) == TextsOf(a) + TextsOf(b);
    }
  }

  lemma {:induction false} TextsOfConcat(a: seq<Part>, b: seq<Part>)
    ensures TextsOf(a + b) == TextsOf(a) + TextsOf(b)
  {
    if a == [] {
      assert a + b == b;
    } else {
      TextsOfConcat(a[1..], b);
      TailOfConcat(a, b);
      ConcatAssociates(if Spoken(a[0]) then [a[0].text.value] else [], TextsOf(a[1..]), TextsOf(b));
    }
  }

  // ---------------------------------------------------------------- parent links

  type Index = map<Id, Message>

  /** The last message with a given id wins. */
  function ByID(messages: seq<Message>): Index {
    if messages == [] then map[]
    else
      var last := messages[|messages| - 1];
      ByID(messages[..|messages| - 1])[Key(last) := last]
  }

  function ParentOf(m: Message, byID: Index): Option<Message> {
    if m.parentID.Some? && m.parentID.value in byID then Some(byID[m.parentID.value]) else None
  }

  /** `chain` is a walk along parent links that starts at `start`, and `next` is what follows it. */
  ghost predicate Walk(start: Message, byID: Index, chain: seq<Message>, next: Option<Message>) {
    if chain == [] then next == Some(start)
    else
      && chain[0] == start
      && (forall i :: 0 < i < |chain| ==> ParentOf(chain[i - 1], byID) == Some(chain[i]))
      && next == ParentOf(chain[|chain| - 1], byID)
  }

  function KeysOf(chain: seq<Message>): set<Id> {
    set m <- chain :: Key(m)
  }

  predicate NoRepeat(chain: seq<Message>) {
    forall i, j :: 0 <= i < j < |chain| ==> Key(chain[i]) != Key(chain[j])
  }

  /** The walk came back to a message on it. */
  predicate Returns(chain: seq<Message>, next: Option<Message>) {
    next.Some? && Key(next.value) in KeysOf(chain)
  }

  lemma {:induction false} IndexKeys(messages: seq<Message>)
    ensures forall id :: id in ByID(messages) ==> Key(ByID(messages)[id]) == id && ByID(messages)[id] in messages
    ensures forall m <- messages :: Key(m) in ByID(messages)
  {
    if messages != [] {
      IndexKeys(messages[..|messages| - 1]);
      assert messages == messages[..|messages| - 1] + [messages[|messages| - 1]];
    }
  }

  /** An id finds the last message that has it. */
  lemma {:induction false} IndexFindsTheLast(messages: seq<Message>, i: nat)
    requires i < |messages| && forall j :: i < j < |messages| ==> Key(messages[j]) != Key(messages[i])
    ensures Key(messages[i]) in ByID(messages) && ByID(messages)[Key(messages[i])] == messages[i]
  {
    if i < |messages| - 1 {
      IndexFindsTheLast(messages[..|messages| - 1], i);
    }
  }

  /** The parent is the last message with the id that the message names, and is missing exactly when it
      names none or no message has it. */
  lemma ParentIsTheNamed(messages: seq<Message>, m: Message)
    ensures ParentOf(m, ByID(messages)).None? <==>
            m.parentID.None? || forall x <- messages :: Key(x) != m.parentID.value
    ensures forall i: nat ::
              i < |messages| && m.parentID == Some(Key(messages[i]))
              && (forall j :: i < j < |messages| ==> Key(messages[j]) != Key(messages[i])) ==>
                ParentOf(m, ByID(messages)) == Some(messages[i])
  {
    IndexKeys(messages);
    forall i: nat | i < |messages| && m.parentID == Some(Key(messages[i]))
                    && forall j :: i < j < |messages| ==> Key(messages[j]) != Key(messages[i])
      ensures ParentOf(m, ByID(messages)) == Some(messages[i])
    {
      IndexFindsTheLast(messages, i);
    }
  }

  ghost predicate DistinctIds(messages: seq<Message>) {
    forall i, j :: 0 <= i < j < |messages| ==> Key(messages[i]) != Key(messages[j])
  }

  /** With distinct ids a message of the transcript is the one its id finds. */
  lemma IndexFinds(messages: seq<Message>, m: Message)
    requires DistinctIds(messages) && m in messages
    ensures Key(m) in ByID(messages) && ByID(messages)[Key(m)] == m
  {
    IndexKeys(messages);
    var found := ByID(messages)[Key(m)];
    var i :| 0 <= i < |messages| && messages[i] == m;
    var j :| 0 <= j < |messages| && messages[j] == found;
    assert i == j;
  }

  /** Every message of a walk is the one that its id finds. */
  ghost predicate Consistent(start: Message, byID: Index) {
    && (forall id :: id in byID ==> Key(byID[id]) == id)
    && Key(start) in byID && byID[Key(start)] == start
  }

  lemma WalkFinds(start: Message, byID: Index, chain: seq<Message>, next: Option<Message>)
    requires Consistent(start, byID) && Walk(start, byID, chain, next)
    ensures forall m <- chain :: Key(m) in byID && byID[Key(m)] == m
    ensures next.Some? ==> Key(next.value) in byID && byID[Key(next.value)] == next.value
  {
    forall i | 0 <= i < |chain| ensures Key(chain[i]) in byID && byID[Key(chain[i])] == chain[i] {
      if i > 0 {
        assert ParentOf(chain[i - 1], byID) == Some(chain[i]);
      }
    }
  }

  /** Walks are determined by their length. */
  lemma WalkIsDetermined(
    start: Message, byID: Index, a: seq<Message>, na: Option<Message>, b: seq<Message>, nb: Option<Message>)
    requires Walk(start, byID, a, na) && Walk(start, byID, b, nb) && |a| <= |b|
    ensures a == b[..|a|]
    ensures na == if |a| < |b| then Some(b[|a|]) else nb
  {
    var i := 0;
    while i < |a|
      invariant 0 <= i <= |a|
      invariant a[..i] == b[..i]
    {
      if i > 0 {
        assert a[i - 1] == a[..i][i - 1] == b[..i][i - 1];
        assert ParentOf(a[i - 1], byID) == Some(a[i]);
        assert ParentOf(b[i - 1], byID) == Some(b[i]);
      }
      assert a[i] == b[i];
      assert a[..i + 1] == a[..i] + [a[i]] && b[..i + 1] == b[..i] + [b[i]];
      i := i + 1;
    }
    if 0 < |a| < |b| {
      assert a[|a| - 1] == b[..|a|][|a| - 1];
      assert ParentOf(b[|a| - 1], byID) == Some(b[|a|]);
    }
  }

  lemma WalkGrows(start: Message, byID: Index, chain: seq<Message>, m: Message)
    requires Walk(start, byID, chain, Some(m))
    ensures Walk(start, byID, chain + [m], ParentOf(m, byID))
  {
  }

  /** A walk that comes back really is on a cycle of messages, and a walk that ends never came back. */
  lemma ReturnsOnlyOnACycle(start: Message, byID: Index, chain: seq<Message>, next: Option<Message>)
    requires Consistent(start, byID) && Walk(start, byID, chain, next)
    ensures Returns(chain, next) ==> next.value in chain
    ensures next.None? ==> NoRepeat(chain)
  {
    WalkFinds(start, byID, chain, next);
    if next.None? && !NoRepeat(chain) {
      var i, j :| 0 <= i < j < |chain| && Key(chain[i]) == Key(chain[j]);
      assert chain[i] == chain[j];
      forall k | 0 <= k < |chain| - 1 ensures ParentOf(chain[k], byID).Some? {
        assert ParentOf(chain[k + 1 - 1], byID) == Some(chain[k + 1]);
      }
      var d := 0;
      while j + d < |chain| - 1
        invariant 0 <= d && j + d < |chain|
        invariant chain[i + d] == chain[j + d]
        decreases |chain| - d
      {
        assert ParentOf(chain[i + d], byID) == Some(chain[i + d + 1]);
        assert ParentOf(chain[j + d], byID) == Some(chain[j + d + 1]);
        d := d + 1;
      }
      assert false;
    }
  }

  // ---------------------------------------------------------------- searching the ancestors

  /** The search looked at `chain` and then stopped at `next`. */
  ghost predicate Searched(
    start: Message, byID: Index, stop: Message -> bool, chain: seq<Message>, next: Option<Message>)
  {
    && Walk(start, byID, chain, next)
    && NoRepeat(chain)
    && (forall m <- chain :: !stop(m))
    && (next.None? || Returns(chain, next) || stop(next.value))
  }

  /** What a search from `start` finds: a stop, the end of the chain, or a way back. */
  ghost predicate Finds(
    start: Message, byID: Index, stop: Message -> bool, r: Result<Option<Message>, Id>)
  {
    exists chain: seq<Message>, next: Option<Message> ::
      Searched(start, byID, stop, chain, next)
      && r == if Returns(chain, next) then Err(Key(next.value)) else Ok(next)
  }

  lemma WalkPrefix(start: Message, byID: Index, chain: seq<Message>, next: Option<Message>, i: nat)
    requires Walk(start, byID, chain, next) && i < |chain|
    ensures Walk(start, byID, chain[..i], Some(chain[i]))
  {
    if i > 0 {
      assert ParentOf(chain[i - 1], byID) == Some(chain[i]);
    }
  }

  /** There is one way to search, so `Finds` determines its result. */
  lemma SearchIsDetermined(
    start: Message, byID: Index, stop: Message -> bool,
    a: seq<Message>, na: Option<Message>, b: seq<Message>, nb: Option<Message>)
    requires Searched(start, byID, stop, a, na) && Searched(start, byID, stop, b, nb)
    ensures a == b && na == nb
  {
    if |a| <= |b| {
      SearchIsLongest(start, byID, stop, a, na, b, nb);
    } else {
      SearchIsLongest(start, byID, stop, b, nb, a, na);
    }
  }

  lemma SearchIsLongest(
    start: Message, byID: Index, stop: Message -> bool,
    a: seq<Message>, na: Option<Message>, b: seq<Message>, nb: Option<Message>)
    requires Searched(start, byID, stop, a, na) && Searched(start, byID, stop, b, nb) && |a| <= |b|
    ensures a == b && na == nb
  {
    if |a| < |b| {
      assert b[|a|] in b;
      NotBackYet(b, |a|);
    }
    WalkIsDetermined(start, byID, a, na, b, nb);
  }

  lemma NotBackYet(chain: seq<Message>, i: nat)
    requires NoRepeat(chain) && i < |chain|
    ensures !Returns(chain[..i], Some(chain[i]))
  {
    forall m <- chain[..i] ensures Key(m) != Key(chain[i]) {
      var k :| 0 <= k < i && chain[k] == m;
    }
  }

  /** The search fails exactly when an endless walk would never stop. */
  lemma SearchFailsExactly(start: Message, byID: Index, stop: Message -> bool, r: Result<Option<Message>, Id>)
    requires Consistent(start, byID) && Finds(start, byID, stop, r)
    ensures r.Err? <==>
            forall chain, next :: Walk(start, byID, chain, next) ==> next.Some? && !stop(next.value)
  {
    var chain: seq<Message>, next: Option<Message> :|
      Searched(start, byID, stop, chain, next)
      && r == if Returns(chain, next) then Err(Key(next.value)) else Ok(next);
    if Returns(chain, next) {
      ReturnsOnlyOnACycle(start, byID, chain, next);
      forall walk, after | Walk(start, byID, walk, after) ensures after.Some? && !stop(after.value) {
        StaysOn(start, byID, chain, next, walk, after);
      }
    }
  }

  /** Once a walk has come back, no walk leaves it. */
  lemma {:induction false} StaysOn(
    start: Message, byID: Index, chain: seq<Message>, next: Option<Message>,
    walk: seq<Message>, after: Option<Message>)
    requires Walk(start, byID, chain, next) && next.Some? && next.value in chain
    requires Walk(start, byID, walk, after)
    ensures after.Some? && after.value in chain
    decreases |walk|
  {
    if walk != [] {
      var last := walk[|walk| - 1];
      StaysOn(start, byID, chain, next, walk[..|walk| - 1], Some(last));
      var i :| 0 <= i < |chain| && chain[i] == last;
      if i + 1 < |chain| {
        assert ParentOf(chain[i], byID) == Some(chain[i + 1]);
      }
    }
  }

  /** The walk of `realUserAncestor` and `inBranch`: the first ancestor that satisfies `stop`. */
  method Search(start: Message, byID: Index, stop: Message -> bool) returns (r: Result<Option<Message>, Id>)
    ensures Finds(start, byID, stop, r)
  {
    var visited: set<Id> := {};
    var current := Some(start);
    ghost var chain: seq<Message> := [];
    while current.Some?
      invariant Walk(start, byID, chain, current)
      invariant NoRepeat(chain)
      invariant visited == KeysOf(chain)
      invariant forall m <- chain :: !stop(m)
      invariant forall m <- chain :: Key(m) in KnownIds(start, byID)
      decreases KnownIds(start, byID) - visited, current.Some?
    {
      var m := current.value;
      if Key(m) in visited {
        assert Searched(start, byID, stop, chain, current);
        return Err(Key(m));
      }
      if stop(m) {
        assert Searched(start, byID, stop, chain, current);
        return Ok(current);
      }
      WalkStays(start, byID, chain, m);
      WalkGrows(start, byID, chain, m);
      visited := visited + {Key(m)};
      chain := chain + [m];
      current := ParentOf(m, byID);
    }
    assert Searched(start, byID, stop, chain, current);
    r := Ok(None);
  }

  /** The ids that a walk can meet. */
  function KnownIds(start: Message, byID: Index): set<Id> {
    {Key(start)} + set id <- byID :: Key(byID[id])
  }

  lemma WalkStays(start: Message, byID: Index, chain: seq<Message>, m: Message)
    requires Walk(start, byID, chain, Some(m))
    ensures Key(m) in KnownIds(start, byID)
  {
  }

  method RealUserAncestor(assistant: Option<Message>, messages: seq<Message>)
    returns (r: Result<Option<Message>, Id>)
    ensures assistant.None? ==> r == Ok(None)
    ensures assistant.Some? ==> Finds(assistant.value, ByID(messages), IsRealUser, r)
  {
    if assistant.None? {
      return Ok(None);
    }
    r := Search(assistant.value, ByID(messages), IsRealUser);
  }

  method InBranch(message: Option<Message>, messages: seq<Message>, origin: Option<Id>)
    returns (r: Result<bool, Id>)
    ensures message.None? || origin.None? ==> r == Ok(false)
    ensures message.Some? && origin.Some? ==>
              exists found :: Finds(message.value, ByID(messages), (m: Message) => Key(m) == origin.value, found)
                              && r == if found.Err? then Err(found.error) else Ok(found.value.Some?)
  {
    if message.None? || origin.None? {
      return Ok(false);
    }
    var stop := (m: Message) => Key(m) == origin.value;
    var found := Search(message.value, ByID(messages), stop);
    r := if found.Err? then Err(found.error) else Ok(found.value.Some?);
    assert Finds(message.value, ByID(messages), (m: Message) => Key(m) == origin.value, found);
  }
}
