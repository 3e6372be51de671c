/** Reading JSON with comments: `stripJsonComments` and `removeTrailingCommas`
    (workspace/moderator/src/config.ts). */
module JsonComments {
  import opened Text

  /** Outside string literals, or inside one. */
  datatype Lex = Outside | Inside(escaped: bool)

  function Next(l: Lex, c: char): Lex {
    match l
    case Outside => if c == '"' then Inside(false) else Outside
    case Inside(true) => Inside(false)
    case Inside(false) => if c == '\\' then Inside(true) else if c == '"' then Outside else l
  }

  predicate Opens(s: string, second: char) {
    |s| >= 2 && s[0] == '/' && s[1] == second
  }

  /** A comment starts here. */
  predicate StartsComment(s: string, l: Lex) {
    l == Outside && (Opens(s, '/') || Opens(s, '*'))
  }

  /** The rest from the end of the line on. */
  function AfterLine(s: string): (rest: string)
    ensures |rest| <= |s|
  {
    if s == "" || s[0] == '\n' then s else AfterLine(s[1..])
  }

  /** The rest after the end of the block comment; nothing when it does not end. */
  function AfterBlock(s: string): (rest: string)
    ensures |rest| <= |s|
  {
    if s == "" then ""
    else if |s| >= 2 && s[0] == '*' && s[1] == '/' then s[2..]
    else AfterBlock(s[1..])
  }

  function AfterComment(s: string): (rest: string)
    requires StartsComment(s, Outside)
    ensures |rest| < |s|
  {
    if s[1] == '/' then AfterLine(s[2..]) else AfterBlock(s[2..])
  }

  /** The text without its comments. */
  function Uncommented(s: string, l: Lex): string
    decreases |s|
  {
    if s == "" then ""
    else if StartsComment(s, l) then Uncommented(AfterComment(s), Outside)
    else [s[0]] + Uncommented(s[1..], Next(l, s[0]))
  }

  /** White space and then a closing bracket. */
  predicate Closes(s: string) {
    s != "" && (s[0] == '}' || s[0] == ']' || (IsSpace(s[0]) && Closes(s[1..])))
  }

  predicate IsTrailingComma(s: string, l: Lex) {
    l == Outside && s != "" && s[0] == ',' && Closes(s[1..])
  }

  /** The text without its trailing commas. */
  function Uncommaed(s: string, l: Lex): string {
    if s == "" then ""
    else if IsTrailingComma(s, l) then Uncommaed(s[1..], l)
    else [s[0]] + Uncommaed(s[1..], Next(l, s[0]))
  }

  function Stripped(s: string): string {
    Uncommaed(Uncommented(s, Outside), Outside)
  }

  // ---------------------------------------------------------------- the scanners

  function LexOf(inString: bool, escaped: bool): Lex {
    if inString then Inside(escaped) else Outside
  }

  /** Emitting one character keeps what is still to come in step. */
  lemma Emits(output: string, s: string, rest: string)
    requires s != ""
    ensures output + ([s[0]] + rest) == (output + [s[0]]) + rest
  {
  }

  method SkipLine(input: string, start: nat) returns (index: nat)
    requires start <= |input|
    ensures start <= index <= |input| && input[index..] == AfterLine(input[start..])
  {
    index := start;
    while index < |input| && input[index] != '\n'
      invariant start <= index <= |input|
      invariant AfterLine(input[start..]) == AfterLine(input[index..])
    {
      assert input[index..][1..] == input[index + 1..];
      index := index + 1;
    }
  }

  method SkipBlock(input: string, start: nat) returns (index: nat)
    requires start <= |input|
    ensures start <= index <= |input| && input[index..] == AfterBlock(input[start..])
  {
    index := start;
    while index < |input| && !(input[index] == '*' && index + 1 < |input| && input[index + 1] == '/')
      invariant start <= index <= |input|
      invariant AfterBlock(input[start..]) == AfterBlock(input[index..])
    {
      assert input[index..][1..] == input[index + 1..];
      index := index + 1;
    }
    if index < |input| {
      assert input[index..][2..] == input[index + 2..];
      index := index + 2;
    }
  }

  method RemoveTrailingCommas(input: string) returns (output: string)
    ensures output == Uncommaed(input, Outside)
  {
    output := "";
    var inString, escaped := false, false;
    assert input[0..] == input;
    for index := 0 to |input|
      invariant escaped ==> inString
      invariant output + Uncommaed(input[index..], LexOf(inString, escaped)) == Uncommaed(input, Outside)
    {
      var c := input[index];
      assert input[index..][1..] == input[index + 1..];
      ghost var l := LexOf(inString, escaped);
      if !inString && c == ',' {
        var cursor := index + 1;
        while cursor < |input| && IsSpace(input[cursor])
          invariant index < cursor <= |input|
          invariant Closes(input[index + 1..]) == Closes(input[cursor..])
        {
          assert input[cursor..][1..] == input[cursor + 1..];
          cursor := cursor + 1;
        }
        if cursor < |input| && (input[cursor] == '}' || input[cursor] == ']') {
          continue;
        }
      }
      Emits(output, input[index..], Uncommaed(input[index + 1..], Next(l, c)));
      output := output + [c];
      inString, escaped := Advance(inString, escaped, c);
    }
  }

  /** The flag updates that both scanners make on a character that starts no comment. */
  method Advance(inString: bool, escaped: bool, c: char) returns (inString': bool, escaped': bool)
    requires escaped ==> inString
    ensures LexOf(inString', escaped') == Next(LexOf(inString, escaped), c)
    ensures escaped' ==> inString'
  {
    inString', escaped' := inString, escaped;
    if inString {
      if escaped {
        escaped' := false;
      } else if c == '\\' {
        escaped' := true;
      } else if c == '"' {
        inString' := false;
      }
    } else if c == '"' {
      inString' := true;
    }
  }

  method StripJsonComments(input: string) returns (output: string)
    ensures output == Stripped(input)
  {
    output := "";
    var index := 0;
    var inString, escaped := false, false;
    assert input[0..] == input;
    while index < |input|
      invariant 0 <= index <= |input|
      invariant escaped ==> inString
      invariant output + Uncommented(input[index..], LexOf(inString, escaped)) == Uncommented(input, Outside)
    {
      var c := input[index];
      ghost var l := LexOf(inString, escaped);
      if !inString && c == '/' && index + 1 < |input| && input[index + 1] == '/' {
        assert StartsComment(input[index..], l);
        assert input[index..][2..] == input[index + 2..];
        index := SkipLine(input, index + 2);
        continue;
      }
      if !inString && c == '/' && index + 1 < |input| && input[index + 1] == '*' {
        assert StartsComment(input[index..], l);
        assert input[index..][2..] == input[index + 2..];
        index := SkipBlock(input, index + 2);
        continue;
      }
      assert !StartsComment(input[index..], l);
      assert input[index..][1..] == input[index + 1..];
      Emits(output, input[index..], Uncommented(input[index + 1..], Next(l, c)));
      output := output + [c];
      inString, escaped := Advance(inString, escaped, c);
      index := index + 1;
    }
    assert input[index..] == "" && output + "" == output;
    output := RemoveTrailingCommas(output);
  }

  // ---------------------------------------------------------------- the comment pass

  /** The comment pass leaves nothing for itself to do. */
  lemma {:induction false} CommentPassIsIdempotent(s: string, l: Lex)
    ensures Uncommented(Uncommented(s, l), l) == Uncommented(s, l)
    decreases |s|
  {
    if s == "" {
    } else if StartsComment(s, l) {
      CommentPassIsIdempotent(AfterComment(s), Outside);
    } else {
      var rest := Uncommented(s[1..], Next(l, s[0]));
      CommentPassIsIdempotent(s[1..], Next(l, s[0]));
      var all := [s[0]] + rest;
      assert all[1..] == rest;
      if l == Outside && s[0] == '/' && rest != "" {
        assert !StartsComment(s[1..], Outside);
        assert rest[0] == s[1];
      }
      assert !StartsComment(all, l);
    }
  }

  /** The string literals of a text, skipping its comments; `open` is the part read of the current one. */
  function Literals(s: string, l: Lex, open: string): seq<string>
    decreases |s|
  {
    if s == "" then (if l == Outside then [] else [open])
    else if StartsComment(s, l) then Literals(AfterComment(s), Outside, open)
    else
      var after := Next(l, s[0]);
      if l == Outside then Literals(s[1..], after, [s[0]])
      else if after == Outside then [open + [s[0]]] + Literals(s[1..], after, "")
      else Literals(s[1..], after, open + [s[0]])
  }

  lemma {:induction false} CommentPassKeepsLiterals(s: string, l: Lex, open: string)
    ensures Literals(Uncommented(s, l), l, open) == Literals(s, l, open)
    decreases |s|
  {
    if s == "" {
    } else if StartsComment(s, l) {
      CommentPassKeepsLiterals(AfterComment(s), Outside, open);
    } else {
      var after := Next(l, s[0]);
      var rest := Uncommented(s[1..], after);
      var all := [s[0]] + rest;
      assert all[1..] == rest;
      if l == Outside && s[0] == '/' && rest != "" {
        assert rest[0] == s[1];
      }
      assert !StartsComment(all, l);
      CommentPassKeepsLiterals(
        s[1..], after, if l == Outside then [s[0]] else if after == Outside then "" else open + [s[0]]);
    }
  }

  /** The comma pass does have work left: each run removes one of two adjacent trailing commas. */
  lemma WholePassIsNotIdempotent()
    ensures Stripped(",,}") == ",}" && Stripped(",}") == "}"
  {
    assert Uncommented("}", Outside) == "}";
    assert Uncommented(",}", Outside) == ",}";
    assert Uncommented(",,}", Outside) == ",,}";
    assert Closes("}") && !Closes(",}");
    assert Uncommaed("}", Outside) == "}";
    assert ",}"[1..] == "}" && ",,}"[1..] == ",}";
    assert Uncommaed(",}", Outside) == "}";
    assert IsTrailingComma(",}", Outside) && !IsTrailingComma(",,}", Outside);
    assert Uncommaed(",,}", Outside) == "," + Uncommaed(",}", Outside);
  }

  // ---------------------------------------------------------------- decorated text

  /** A text with decoration: its own characters, and what was inserted between them. */
  datatype Unit = Keep(c: char) | Block(body: string) | Line(body: string) | Comma

  function RenderUnit(u: Unit): string {
    match u
    case Keep(c) => [c]
    case Block(body) => "/*" + body + "*/"
    case Line(body) => "//" + body
    case Comma => ","
  }

  function Render(units: seq<Unit>): string {
    if units == [] then "" else RenderUnit(units[0]) + Render(units[1..])
  }

  /** The text before it was decorated. */
  function Original(units: seq<Unit>): string {
    if units == [] then ""
    else (if units[0].Keep? then [units[0].c] else "") + Original(units[1..])
  }

  /** The text and its inserted commas, without the inserted comments. */
  function Bare(units: seq<Unit>): string {
    if units == [] then ""
    else (if units[0].Keep? || units[0].Comma? then RenderUnit(units[0]) else "") + Bare(units[1..])
  }

  /** After white space and comments comes a closing bracket of the text. */
  predicate BracketNext(units: seq<Unit>) {
    units != []
    && match units[0]
       case Keep(c) => c == '}' || c == ']' || (IsSpace(c) && BracketNext(units[1..]))
       case Comma => false
       case _ => BracketNext(units[1..])
  }

  predicate EndsNothing(body: string) {
    forall i :: 0 <= i < |body| - 1 ==> !(body[i] == '*' && body[i + 1] == '/')
  }

  /** Decoration stands outside string literals: block comments anywhere, line comments at the end of a
      line or of the text, single commas before a closing bracket. The text itself has a slash only
      inside string literals. */
  predicate WellPlaced(units: seq<Unit>, l: Lex) {
    units == []
    || match units[0]
       case Keep(c) => (l == Outside ==> c != '/') && WellPlaced(units[1..], Next(l, c))
       case Block(body) => l == Outside && EndsNothing(body) && WellPlaced(units[1..], l)
       case Line(body) =>
         && l == Outside && '\n' !in body
         && (units[1..] == [] || units[1] == Keep('\n'))
         && WellPlaced(units[1..], l)
       case Comma => l == Outside && BracketNext(units[1..]) && WellPlaced(units[1..], l)
  }

  predicate NoTrailingComma(s: string, l: Lex) {
    s != "" ==> !IsTrailingComma(s, l) && NoTrailingComma(s[1..], Next(l, s[0]))
  }

  lemma {:induction false} BlockEnds(body: string, rest: string)
    requires EndsNothing(body)
    ensures AfterBlock(body + "*/" + rest) == rest
  {
    var s := body + "*/" + rest;
    if body == "" {
      assert s[2..] == rest;
    } else {
      assert s[1..] == body[1..] + "*/" + rest;
      if |body| > 1 {
        assert s[1] == body[1];
      } else {
        assert s[1] == '*';
      }
      forall i | 0 <= i < |body[1..]| - 1 ensures !(body[1..][i] == '*' && body[1..][i + 1] == '/') {
        assert body[1..][i] == body[i + 1] && body[1..][i + 1] == body[i + 2];
      }
      BlockEnds(body[1..], rest);
    }
  }

  lemma {:induction false} LineEnds(body: string, rest: string)
    requires '\n' !in body && (rest == "" || rest[0] == '\n')
    ensures AfterLine(body + rest) == rest
  {
    if body == "" {
      assert body + rest == rest;
    } else {
      assert (body + rest)[1..] == body[1..] + rest;
      assert (body + rest)[0] == body[0] && body[0] in body;
      LineEnds(body[1..], rest);
    }
  }

  lemma BlockIsSkipped(body: string, rest: string)
    requires EndsNothing(body)
    ensures Uncommented("/*" + body + "*/" + rest, Outside) == Uncommented(rest, Outside)
  {
    var s := "/*" + body + "*/" + rest;
    assert s[0] == '/' && s[1] == '*';
    assert s[2..] == body + "*/" + rest;
    BlockEnds(body, rest);
  }

  lemma LineIsSkipped(body: string, rest: string)
    requires '\n' !in body && (rest == "" || rest[0] == '\n')
    ensures Uncommented("//" + body + rest, Outside) == Uncommented(rest, Outside)
  {
    var s := "//" + body + rest;
    assert s[0] == '/' && s[1] == '/';
    assert s[2..] == body + rest;
    LineEnds(body, rest);
  }

  lemma {:induction false} CommentsAreRemoved(units: seq<Unit>, l: Lex)
    requires WellPlaced(units, l)
    ensures Uncommented(Render(units), l) == Bare(units)
    decreases |units|
  {
    if units != [] {
      var rest := Render(units[1..]);
      match units[0]
      case Keep(c) =>
        CommentsAreRemoved(units[1..], Next(l, c));
        assert Render(units)[1..] == rest;
      case Block(body) =>
        CommentsAreRemoved(units[1..], l);
        BlockIsSkipped(body, rest);
        assert Bare(units) == Bare(units[1..]);
      case Line(body) =>
        CommentsAreRemoved(units[1..], l);
        assert rest == "" || rest[0] == '\n';
        LineIsSkipped(body, rest);
        assert Bare(units) == Bare(units[1..]);
      case Comma =>
        CommentsAreRemoved(units[1..], l);
        assert Render(units)[1..] == rest;
    }
  }

  lemma ClosesCons(c: char, rest: string)
    ensures Closes([c] + rest) <==> c == '}' || c == ']' || (IsSpace(c) && Closes(rest))
  {
    assert ([c] + rest)[1..] == rest;
  }

  lemma {:induction false} BracketCloses(units: seq<Unit>)
    ensures Closes(Bare(units)) <==> BracketNext(units)
    ensures Closes(Bare(units)) ==> Closes(Original(units))
  {
    if units != [] {
      var bare, original := Bare(units[1..]), Original(units[1..]);
      BracketCloses(units[1..]);
      match units[0]
      case Keep(c) =>
        assert Bare(units) == [c] + bare && Original(units) == [c] + original;
        ClosesCons(c, bare);
        ClosesCons(c, original);
      case Comma =>
        assert Bare(units) == [','] + bare;
        ClosesCons(',', bare);
      case _ =>
        assert Bare(units) == bare;
        assert Original(units) == original;
    }
  }

  lemma {:induction false} CommasAreRemoved(units: seq<Unit>, l: Lex)
    requires WellPlaced(units, l) && NoTrailingComma(Original(units), l)
    ensures Uncommaed(Bare(units), l) == Original(units)
    decreases |units|
  {
    if units != [] {
      BracketCloses(units[1..]);
      match units[0]
      case Keep(c) =>
        assert Bare(units)[1..] == Bare(units[1..]);
        assert Original(units)[1..] == Original(units[1..]);
        CommasAreRemoved(units[1..], Next(l, c));
      case Comma =>
        assert Bare(units)[1..] == Bare(units[1..]);
        assert Original(units) == Original(units[1..]);
        CommasAreRemoved(units[1..], l);
      case _ =>
        assert Bare(units) == Bare(units[1..]);
        assert Original(units) == Original(units[1..]);
        CommasAreRemoved(units[1..], l);
    }
  }

  /** Stripping undoes decoration: however comments and trailing commas are inserted into a text that has
      neither, the original text comes back. */
  lemma StrippingUndoesDecoration(units: seq<Unit>)
    requires WellPlaced(units, Outside) && NoTrailingComma(Original(units), Outside)
    ensures Stripped(Render(units)) == Original(units)
  {
    CommentsAreRemoved(units, Outside);
    CommasAreRemoved(units, Outside);
  }

  /** A trailing comma of the text itself is lost, so the condition on the text is needed: an undecorated
      text without slashes outside literals comes back exactly when it has no trailing comma. */
  lemma {:induction false} UndecoratedTextSurvivesExactly(s: string, l: Lex)
    ensures |Uncommaed(s, l)| <= |s|
    ensures Uncommaed(s, l) == s <==> NoTrailingComma(s, l)
  {
    if s != "" {
      if IsTrailingComma(s, l) {
        UndecoratedTextSurvivesExactly(s[1..], l);
      } else {
        UndecoratedTextSurvivesExactly(s[1..], Next(l, s[0]));
        assert s == [s[0]] + s[1..];
        assert Uncommaed(s, l)[1..] == Uncommaed(s[1..], Next(l, s[0]));
      }
    }
  }

  // ---------------------------------------------------------------- stripping twice

  /** White space and then a trailing comma. */
  predicate BeforeTrailing(s: string) {
    s != "" && ((IsSpace(s[0]) && BeforeTrailing(s[1..])) || (s[0] == ',' && Closes(s[1..])))
  }

  /** No comma outside literals stands before a trailing comma. */
  predicate NoStacked(s: string, l: Lex) {
    s != "" ==>
      && !(l == Outside && s[0] == ',' && BeforeTrailing(s[1..]))
      && NoStacked(s[1..], Next(l, s[0]))
  }

  lemma {:induction false} ClosesAfterCommas(s: string)
    ensures Closes(Uncommaed(s, Outside)) <==> Closes(s) || BeforeTrailing(s)
  {
    if s != "" {
      var rest := Uncommaed(s[1..], Outside);
      if IsTrailingComma(s, Outside) {
        ClosesAfterCommas(s[1..]);
      } else if IsSpace(s[0]) {
        ClosesAfterCommas(s[1..]);
        ClosesCons(s[0], rest);
      } else {
        ClosesCons(s[0], Uncommaed(s[1..], Next(Outside, s[0])));
      }
    }
  }

  /** The comma pass leaves a trailing comma exactly where commas are stacked. */
  lemma {:induction false} TrailingCommasAreStacked(s: string, l: Lex)
    ensures NoTrailingComma(Uncommaed(s, l), l) <==> NoStacked(s, l)
  {
    if s != "" {
      if IsTrailingComma(s, l) {
        TrailingCommasAreStacked(s[1..], l);
        ClosingIsNotStacked(s[1..]);
      } else {
        var rest := Uncommaed(s[1..], Next(l, s[0]));
        TrailingCommasAreStacked(s[1..], Next(l, s[0]));
        assert Uncommaed(s, l) == [s[0]] + rest && ([s[0]] + rest)[1..] == rest;
        if l == Outside && s[0] == ',' {
          ClosesAfterCommas(s[1..]);
        }
      }
    }
  }

  lemma {:induction false} ClosingIsNotStacked(s: string)
    requires Closes(s)
    ensures !BeforeTrailing(s)
  {
    if IsSpace(s[0]) {
      ClosingIsNotStacked(s[1..]);
    }
  }

  predicate NoComment(s: string, l: Lex) {
    s != "" ==> !StartsComment(s, l) && NoComment(s[1..], Next(l, s[0]))
  }

  lemma {:induction false} NoCommentStays(s: string, l: Lex)
    requires NoComment(s, l)
    ensures Uncommented(s, l) == s
  {
    if s != "" {
      NoCommentStays(s[1..], Next(l, s[0]));
      assert s == [s[0]] + s[1..];
    }
  }

  lemma {:induction false} UncommentedHasNone(s: string, l: Lex)
    ensures NoComment(Uncommented(s, l), l)
    decreases |s|
  {
    if s == "" {
    } else if StartsComment(s, l) {
      UncommentedHasNone(AfterComment(s), Outside);
    } else {
      var rest := Uncommented(s[1..], Next(l, s[0]));
      UncommentedHasNone(s[1..], Next(l, s[0]));
      var all := [s[0]] + rest;
      assert all[1..] == rest;
      if l == Outside && s[0] == '/' && rest != "" {
        assert !StartsComment(s[1..], Outside);
        assert rest[0] == s[1];
      }
    }
  }

  /** Where commas are removed no comment comes about. */
  lemma {:induction false} CommaPassMakesNoComment(s: string, l: Lex)
    requires NoComment(s, l)
    ensures NoComment(Uncommaed(s, l), l)
  {
    if s != "" {
      if IsTrailingComma(s, l) {
        CommaPassMakesNoComment(s[1..], l);
      } else {
        var rest := Uncommaed(s[1..], Next(l, s[0]));
        CommaPassMakesNoComment(s[1..], Next(l, s[0]));
        var all := [s[0]] + rest;
        assert all[1..] == rest;
        if l == Outside && s[0] == '/' && rest != "" {
          HeadAfterCommas(s[1..]);
        }
      }
    }
  }

  lemma HeadAfterCommas(s: string)
    requires Uncommaed(s, Outside) != ""
    ensures Uncommaed(s, Outside)[0] == s[0] || Uncommaed(s, Outside)[0] !in {'/', '*'}
  {
    if s != "" && IsTrailingComma(s, Outside) {
      assert !IsTrailingComma(s[1..], Outside);
    }
  }

  /** Stripping twice is stripping once exactly when, comments aside, no comma stands before a trailing
      comma. */
  lemma StrippingIsIdempotentExactly(s: string)
    ensures Stripped(Stripped(s)) == Stripped(s) <==> NoStacked(Uncommented(s, Outside), Outside)
  {
    var bare := Uncommented(s, Outside);
    UncommentedHasNone(s, Outside);
    CommaPassMakesNoComment(bare, Outside);
    NoCommentStays(Stripped(s), Outside);
    UndecoratedTextSurvivesExactly(Stripped(s), Outside);
    TrailingCommasAreStacked(bare, Outside);
  }
}
