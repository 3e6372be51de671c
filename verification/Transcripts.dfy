/** Grouping the messages of a session into numbered turns
    (scripts/benchmark/llamafile_transcript_classifier/transcripts.py). */
module Transcripts {
  import opened Base
  import opened Text

  datatype Part = NotAMapping | Part(kind: string, text: Option<string>)

  datatype Row = Row(role: string, parts: seq<Part>)

  datatype Turn = Turn(index: int, user: string, assistant: string)

  /** A number of characters for one token; nothing can be divided by zero. */
  type Rate = r: real | r != 0.0 witness 1.0

  /** `max(1, int(chars / charsPerToken))`. */
  function TokensOf(chars: nat, rate: Rate): int {
    var quotient := chars as real / rate;
    if quotient < 1.0 then 1 else quotient.Floor
  }

  /** At least one token, and otherwise the whole tokens that the characters fill. */
  lemma TokensOfIs(chars: nat, rate: Rate)
    ensures TokensOf(chars, rate) >= 1
    ensures rate > 0.0 && TokensOf(chars, rate) > 1 ==>
              TokensOf(chars, rate) as real <= chars as real / rate < TokensOf(chars, rate) as real + 1.0
    ensures TokensOf(chars, rate) == 1 <==> chars as real / rate < 2.0
  {
  }

  // ---------------------------------------------------------------- texts

  function PartText(part: Part, allowed: set<string>): string {
    if part.Part? && part.kind in allowed && part.kind == "text" && part.text.Some?
    then Strip(part.text.value, IsPythonSpace)
    else ""
  }

  function OrNothing(text: string): seq<string> {
    if text == "" then [] else [text]
  }

  function PartTexts(parts: seq<Part>, allowed: set<string>): seq<string> {
    if parts == [] then []
    else PartTexts(parts[..|parts| - 1], allowed) + OrNothing(PartText(parts[|parts| - 1], allowed))
  }

  function MessageText(parts: seq<Part>, allowed: set<string>): string {
    Join(PartTexts(parts, allowed), "\n\n")
  }

  method ReadMessage(parts: seq<Part>, allowed: set<string>) returns (text: string)
    ensures text == MessageText(parts, allowed)
  {
    var texts := [];
    for i := 0 to |parts|
      invariant texts == PartTexts(parts[..i], allowed)
    {
      assert parts[..i + 1][..i] == parts[..i];
      if parts[i].NotAMapping? {
        continue;
      }
      var one := PartText(parts[i], allowed);
      if one != "" {
        texts := texts + [one];
      }
    }
    assert parts[..|parts|] == parts;
    text := Join(texts, "\n\n");
  }

  // ---------------------------------------------------------------- turns

  /** The next user row at or after `from`, or the end. */
  function NextUser(rows: seq<Row>, from: nat): (k: nat)
    requires from <= |rows|
    ensures from <= k <= |rows|
    ensures forall i :: from <= i < k ==> rows[i].role != "user"
    ensures k < |rows| ==> rows[k].role == "user"
    decreases |rows| - from
  {
    if from == |rows| || rows[from].role == "user" then from else NextUser(rows, from + 1)
  }

  /** The non-empty texts of the assistant rows in a range. */
  function AssistantTexts(rows: seq<Row>, lo: nat, hi: nat, allowed: set<string>): seq<string>
    requires lo <= hi <= |rows|
  {
    if lo == hi then []
    else
      AssistantTexts(rows, lo, hi - 1, allowed)
      + if rows[hi - 1].role == "assistant" then OrNothing(MessageText(rows[hi - 1].parts, allowed)) else []
  }

  /** What the assistant said between the user row at `p` and the next one. */
  function Answer(rows: seq<Row>, p: nat, allowed: set<string>): string
    requires p < |rows|
  {
    Join(AssistantTexts(rows, p + 1, NextUser(rows, p + 1), allowed), "\n\n")
  }

  /** The rows that open a turn: a prompt with some text that got an answer with some text. */
  predicate OpensTurn(rows: seq<Row>, p: nat, allowed: set<string>) {
    && p < |rows| && rows[p].role == "user"
    && MessageText(rows[p].parts, allowed) != "" && Answer(rows, p, allowed) != ""
  }

  /** The turn is that of the prompt at `p`: its text, and the texts of the assistant up to the next prompt. */
  predicate IsTurnAt(turn: Turn, rows: seq<Row>, p: nat, allowed: set<string>)
    requires p < |rows|
  {
    && turn.user == MessageText(rows[p].parts, allowed)
    && turn.assistant == Join(AssistantTexts(rows, p + 1, NextUser(rows, p + 1), allowed), "\n\n")
  }

  /** `at` lists the rows that open a turn in order, and the turns are theirs, numbered from 1. */
  predicate Grouped(turns: seq<Turn>, at: seq<nat>, rows: seq<Row>, allowed: set<string>, end: nat)
    requires end <= |rows|
  {
    && |at| == |turns|
    && (forall k :: 0 <= k < |at| ==>
                      at[k] < end && OpensTurn(rows, at[k], allowed)
                      && turns[k].index == k + 1 && IsTurnAt(turns[k], rows, at[k], allowed))
    && Increasing(at)
    && (forall p :: 0 <= p < end && OpensTurn(rows, p, allowed) ==> p in at)
  }

  predicate Numbered(turns: seq<Turn>) {
    forall k :: 0 <= k < |turns| ==> turns[k].index == k + 1
  }

  /** Reads the assistant rows up to the next user row. */
  method ReadAnswer(rows: seq<Row>, p: nat, allowed: set<string>) returns (text: string, next: nat)
    requires p < |rows|
    ensures text == Answer(rows, p, allowed) && next == NextUser(rows, p + 1)
  {
    var chunks := [];
    next := p + 1;
    while next < |rows|
      invariant p + 1 <= next <= NextUser(rows, p + 1)
      invariant chunks == AssistantTexts(rows, p + 1, next, allowed)
    {
      if rows[next].role == "user" {
        break;
      }
      if rows[next].role == "assistant" {
        var one := ReadMessage(rows[next].parts, allowed);
        if one != "" {
          chunks := chunks + [one];
        }
      }
      next := next + 1;
    }
    text := Join(chunks, "\n\n");
  }

  /** `parse_session_turns` over the rows of a session in time order. */
  method ParseSessionTurns(rows: seq<Row>, includePartTypes: seq<string>)
    returns (turns: seq<Turn>, ghost at: seq<nat>)
    ensures Grouped(turns, at, rows, AllowedTypes(includePartTypes), |rows|)
    ensures Numbered(turns)
  {
    var allowed := AllowedTypes(includePartTypes);
    turns, at := [], [];
    var turnIndex, i := 0, 0;
    while i < |rows|
      invariant i <= |rows| && turnIndex == |turns|
      invariant Grouped(turns, at, rows, allowed, i)
    {
      if rows[i].role != "user" {
        RowPassed(turns, at, rows, allowed, i);
        i := i + 1;
        continue;
      }
      ghost var p := i;
      var user := ReadMessage(rows[i].parts, allowed);
      var assistant;
      assistant, i := ReadAnswer(rows, i, allowed);
      if user != "" && assistant != "" {
        turnIndex := turnIndex + 1;
        TurnAdded(turns, at, rows, allowed, p, user, assistant);
        turns, at := turns + [Turn(turnIndex, user, assistant)], at + [p];
      } else {
        RowPassed(turns, at, rows, allowed, p);
      }
      AnswersPassed(turns, at, rows, allowed, p + 1, i);
    }
  }

  function AllowedTypes(includePartTypes: seq<string>): set<string> {
    if includePartTypes == [] then {"text"} else set kind <- includePartTypes
  }

  lemma RowPassed(turns: seq<Turn>, at: seq<nat>, rows: seq<Row>, allowed: set<string>, p: nat)
    requires p < |rows| && Grouped(turns, at, rows, allowed, p) && !OpensTurn(rows, p, allowed)
    ensures Grouped(turns, at, rows, allowed, p + 1)
  {
  }

  /** The rows up to the next user row open no turn. */
  lemma AnswersPassed(
    turns: seq<Turn>, at: seq<nat>, rows: seq<Row>, allowed: set<string>, p: nat, next: nat)
    requires p <= |rows| && next == NextUser(rows, p) && Grouped(turns, at, rows, allowed, p)
    ensures Grouped(turns, at, rows, allowed, next)
  {
  }

  lemma TurnAdded(
    turns: seq<Turn>, at: seq<nat>, rows: seq<Row>, allowed: set<string>, p: nat, user: string, assistant: string)
    requires p < |rows| && Grouped(turns, at, rows, allowed, p) && OpensTurn(rows, p, allowed)
    requires user == MessageText(rows[p].parts, allowed) && assistant == Answer(rows, p, allowed)
    ensures Grouped(turns + [Turn(|turns| + 1, user, assistant)], at + [p], rows, allowed, p + 1)
  {
    forall q | 0 <= q < p + 1 && OpensTurn(rows, q, allowed) ensures q in at + [p] {}
  }

  /** Rows of other roles say nothing in an answer, and neither does an assistant row without text. */
  lemma OthersAreSilent(rows: seq<Row>, lo: nat, hi: nat, allowed: set<string>)
    requires lo < hi <= |rows|
    requires rows[hi - 1].role != "assistant" || MessageText(rows[hi - 1].parts, allowed) == ""
    ensures AssistantTexts(rows, lo, hi, allowed) == AssistantTexts(rows, lo, hi - 1, allowed)
  {
  }

  predicate Increasing(s: seq<nat>) {
    forall i, j :: 0 <= i < j < |s| ==> s[i] < s[j]
  }

  lemma InitOfIncreasing(s: seq<nat>)
    requires Increasing(s) && s != []
    ensures Increasing(s[..|s| - 1])
    ensures forall x :: x in s[..|s| - 1] <==> x in s && x < s[|s| - 1]
    ensures forall x <- s :: x <= s[|s| - 1]
  {
    var init, last := s[..|s| - 1], s[|s| - 1];
    forall x ensures x in init <==> x in s && x < last {
      if x in s && x < last {
        var k :| 0 <= k < |s| && s[k] == x;
        assert init[k] == x;
      }
    }
  }

  ghost predicate SameMembers(a: seq<nat>, b: seq<nat>) {
    forall x :: x in a <==> x in b
  }

  lemma SameLast(a: seq<nat>, b: seq<nat>)
    requires Increasing(a) && Increasing(b) && a != [] && b != [] && SameMembers(a, b)
    ensures a[|a| - 1] == b[|b| - 1]
    ensures Increasing(a[..|a| - 1]) && Increasing(b[..|b| - 1])
    ensures SameMembers(a[..|a| - 1], b[..|b| - 1])
  {
    assert a[|a| - 1] in b && b[|b| - 1] in a;
    InitOfIncreasing(a);
    InitOfIncreasing(b);
    var shorter, other := a[..|a| - 1], b[..|b| - 1];
    forall x ensures x in shorter <==> x in other {
      assert x in a <==> x in b;
    }
  }

  lemma {:induction false} SameEnumeration(a: seq<nat>, b: seq<nat>)
    requires Increasing(a) && Increasing(b) && SameMembers(a, b)
    ensures a == b
  {
    assert b != [] ==> b[0] in a;
    assert a != [] ==> a[0] in b;
    if a != [] {
      SameLast(a, b);
      SameEnumeration(a[..|a| - 1], b[..|b| - 1]);
      assert a == a[..|a| - 1] + [a[|a| - 1]] && b == b[..|b| - 1] + [b[|b| - 1]];
    }
  }

  /** The turns are those of the user rows that say something and have an assistant that says something before
      the next user row, so no turn has an empty side. */
  lemma TurnsAreTheAnsweredPrompts(
    turns: seq<Turn>, at: seq<nat>, rows: seq<Row>, allowed: set<string>, end: nat, p: nat)
    requires p < end <= |rows| && Grouped(turns, at, rows, allowed, end)
    ensures p in at <==>
            && rows[p].role == "user" && MessageText(rows[p].parts, allowed) != ""
            && Join(AssistantTexts(rows, p + 1, NextUser(rows, p + 1), allowed), "\n\n") != ""
    ensures forall t <- turns :: t.user != "" && t.assistant != ""
  {
    forall t <- turns ensures t.user != "" && t.assistant != "" {
      var k :| 0 <= k < |turns| && turns[k] == t;
      assert OpensTurn(rows, at[k], allowed) && IsTurnAt(turns[k], rows, at[k], allowed);
    }
    if p in at {
      var k :| 0 <= k < |at| && at[k] == p;
    }
  }

  /** The grouping is determined by the rows. */
  lemma GroupingIsDetermined(
    turns: seq<Turn>, at: seq<nat>, turns': seq<Turn>, at': seq<nat>,
    rows: seq<Row>, allowed: set<string>, end: nat)
    requires end <= |rows|
    requires Grouped(turns, at, rows, allowed, end) && Grouped(turns', at', rows, allowed, end)
    ensures turns == turns'
  {
    SameEnumeration(at, at');
    forall k | 0 <= k < |turns| ensures turns[k] == turns'[k] {
      assert IsTurnAt(turns[k], rows, at[k], allowed) && IsTurnAt(turns'[k], rows, at[k], allowed);
    }
  }

  /** What is said in a part: the text of a text part, if text parts are allowed. */
  predicate Says(part: Part, allowed: set<string>) {
    part.Part? && part.kind == "text" && "text" in allowed && part.text.Some?
  }

  lemma PartTextsSnoc(parts: seq<Part>, p: Part, allowed: set<string>)
    ensures PartTexts(parts + [p], allowed) == PartTexts(parts, allowed) + OrNothing(PartText(p, allowed))
  {
    assert (parts + [p])[..|parts|] == parts;
  }

  lemma PartTextsStep(a: seq<Part>, b: seq<Part>, init: seq<Part>, p: Part, allowed: set<string>)
    requires b == init + [p]
    requires PartTexts(a + init, allowed) == PartTexts(a, allowed) + PartTexts(init, allowed)
    ensures PartTexts(a + b, allowed) == PartTexts(a, allowed) + PartTexts(b, allowed)
  {
    var one := OrNothing(PartText(p, allowed));
    PartTextsSnoc(a + init, p, allowed);
    PartTextsSnoc(init, p, allowed);
    ConcatAssociates(a, init, [p]);
    ConcatAssociates(PartTexts(a, allowed), PartTexts(init, allowed), one);
  }

  lemma {:induction false} PartTextsConcat(a: seq<Part>, b: seq<Part>, allowed: set<string>)
    ensures PartTexts(a + b, allowed) == PartTexts(a, allowed) + PartTexts(b, allowed)
  {
    if b == [] {
      assert a + b == a;
    } else {
      PartTextsConcat(a, b[..|b| - 1], allowed);
      PartTextsStep(a, b, b[..|b| - 1], b[|b| - 1], allowed);
    }
  }

  lemma PartTextsOfOne(p: Part, allowed: set<string>)
    ensures PartTexts([p], allowed) == OrNothing(PartText(p, allowed))
  {
    assert [p][..0] == [];
  }

  /** A part that says nothing, or only blanks, leaves the message as it is, and the text of one part is that
      part without its outer blanks. */
  lemma MessageTextIs(a: seq<Part>, p: Part, b: seq<Part>, allowed: set<string>)
    ensures !Says(p, allowed) || Strip(p.text.value, IsPythonSpace) == "" ==>
              MessageText(a + [p] + b, allowed) == Join(PartTexts(a, allowed) + PartTexts(b, allowed), "\n\n")
    ensures Says(p, allowed) ==> MessageText([p], allowed) == Strip(p.text.value, IsPythonSpace)
  {
    PartTextsConcat(a + [p], b, allowed);
    PartTextsConcat(a, [p], allowed);
    PartTextsOfOne(p, allowed);
    assert PartTexts(a, allowed) + [] == PartTexts(a, allowed);
  }

  /** Without a configured list only text parts are allowed. */
  lemma AllowedByDefault(types: seq<string>, kind: string)
    ensures kind in AllowedTypes(types) <==> kind in types || (types == [] && kind == "text")
  {
  }
}
