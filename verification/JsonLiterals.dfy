/** Decorated texts whose string literals are written out unit by unit, without a scanner
    (workspace/moderator/src/config.ts). */
module JsonLiterals {
  import opened Base
  import opened Text
  import opened JsonComments

  /** One unit of a literal: a character as it is, or a backslash and the character that it escapes. */
  datatype LitUnit = Plain(c: char) | Escape(c: char)

  /** A piece of decorated text: a whole string literal, a character outside of literals, or decoration. */
  datatype Piece =
    | Literal(body: seq<LitUnit>)
    | Outer(c: char)
    | BlockComment(text: string)
    | LineComment(text: string)
    | ExtraComma

  predicate IsLiteral(body: seq<LitUnit>) {
    forall u <- body :: u.Plain? ==> u.c != '"' && u.c != '\\'
  }

  function UnitText(u: LitUnit): string {
    match u
    case Plain(c) => [c]
    case Escape(c) => ['\\', c]
  }

  function BodyText(body: seq<LitUnit>): string {
    if body == [] then "" else UnitText(body[0]) + BodyText(body[1..])
  }

  function PieceText(p: Piece): string {
    match p
    case Literal(body) => "\"" + BodyText(body) + "\""
    case Outer(c) => [c]
    case BlockComment(text) => "/*" + text + "*/"
    case LineComment(text) => "//" + text
    case ExtraComma => ","
  }

  /** The decorated text. */
  function Written(pieces: seq<Piece>): string {
    if pieces == [] then "" else PieceText(pieces[0]) + Written(pieces[1..])
  }

  /** The text that was decorated. */
  function Plainly(pieces: seq<Piece>): string {
    if pieces == [] then ""
    else (if pieces[0].Literal? || pieces[0].Outer? then PieceText(pieces[0]) else "") + Plainly(pieces[1..])
  }

  /** Comments and extra commas aside, white space and then a closing bracket follow. */
  predicate ClosesNext(pieces: seq<Piece>) {
    pieces != []
    && match pieces[0]
       case Outer(c) => c == '}' || c == ']' || (IsSpace(c) && ClosesNext(pieces[1..]))
       case Literal(_) => false
       case _ => ClosesNext(pieces[1..])
  }

  /** Comments aside, white space and then a closing bracket follow, before any other extra comma. */
  predicate ClosesAtOnce(pieces: seq<Piece>) {
    pieces != []
    && match pieces[0]
       case Outer(c) => c == '}' || c == ']' || (IsSpace(c) && ClosesAtOnce(pieces[1..]))
       case Literal(_) => false
       case ExtraComma => false
       case _ => ClosesAtOnce(pieces[1..])
  }

  /** Literals are literals, nothing outside of them is a quote, a slash or a trailing comma, and decoration
      stands where it may. */
  predicate Decorated(pieces: seq<Piece>) {
    pieces == []
    || (Decorated(pieces[1..])
        && match pieces[0]
           case Literal(body) => IsLiteral(body)
           case Outer(c) => c != '"' && c != '/' && (c == ',' ==> !ClosesNext(pieces[1..]))
           case BlockComment(text) => EndsNothing(text)
           case LineComment(text) => '\n' !in text && (pieces[1..] == [] || pieces[1] == Outer('\n'))
           case ExtraComma => ClosesAtOnce(pieces[1..]))
  }

  // ---------------------------------------------------------------- as characters and decoration

  function Kept(text: string): seq<Unit> {
    if text == "" then [] else [Keep(text[0])] + Kept(text[1..])
  }

  function PieceUnits(p: Piece): seq<Unit> {
    match p
    case BlockComment(text) => [Block(text)]
    case LineComment(text) => [Line(text)]
    case ExtraComma => [Comma]
    case _ => Kept(PieceText(p))
  }

  function Units(pieces: seq<Piece>): seq<Unit> {
    if pieces == [] then [] else PieceUnits(pieces[0]) + Units(pieces[1..])
  }

  lemma OneMoreKept(c: char, more: seq<Unit>)
    ensures Render([Keep(c)] + more) == [c] + Render(more)
    ensures Original([Keep(c)] + more) == [c] + Original(more)
  {
    assert ([Keep(c)] + more)[1..] == more;
  }

  lemma {:induction false} KeptText(text: string, more: seq<Unit>)
    ensures Render(Kept(text) + more) == text + Render(more)
    ensures Original(Kept(text) + more) == text + Original(more)
  {
    if text == "" {
      assert [] + more == more;
    } else {
      KeptText(text[1..], more);
      OneMoreKept(text[0], Kept(text[1..]) + more);
      ConcatAssociates([Keep(text[0])], Kept(text[1..]), more);
      assert text == [text[0]] + text[1..];
      ConcatAssociates([text[0]], text[1..], Render(more));
      ConcatAssociates([text[0]], text[1..], Original(more));
    }
  }

  lemma {:induction false} UnitsText(pieces: seq<Piece>)
    ensures Render(Units(pieces)) == Written(pieces)
    ensures Original(Units(pieces)) == Plainly(pieces)
  {
    if pieces != [] {
      var p, more := pieces[0], Units(pieces[1..]);
      UnitsText(pieces[1..]);
      if p.Literal? || p.Outer? {
        KeptText(PieceText(p), more);
      } else {
        assert Units(pieces)[1..] == more;
      }
    }
  }

  // ---------------------------------------------------------------- literals are scanned as they are written

  lemma {:induction false} KeptConcat(a: string, b: string)
    ensures Kept(a + b) == Kept(a) + Kept(b)
  {
    if a == "" {
      assert a + b == b;
    } else {
      KeptConcat(a[1..], b);
      assert (a + b)[0] == a[0] && (a + b)[1..] == a[1..] + b;
    }
  }

  lemma UnitStaysInside(u: LitUnit, more: seq<Unit>)
    requires u.Plain? ==> u.c != '"' && u.c != '\\'
    requires WellPlaced(more, Inside(false))
    ensures WellPlaced(Kept(UnitText(u)) + more, Inside(false))
  {
    var units := Kept(UnitText(u)) + more;
    match u
    case Plain(c) =>
      assert Kept([c]) == [Keep(c)] + Kept([c][1..]) == [Keep(c)];
      assert units[1..] == more;
    case Escape(c) =>
      var text := ['\\', c];
      assert text[1..] == [c] && [c][1..] == "";
      assert Kept(text) == [Keep('\\')] + Kept([c]) && Kept([c]) == [Keep(c)];
      assert units[0] == Keep('\\') && units[1..][0] == Keep(c) && units[1..][1..] == more;
  }

  /** The scanner leaves a literal at its end and nowhere before. */
  lemma {:induction false} BodyStaysInside(body: seq<LitUnit>, more: seq<Unit>)
    requires IsLiteral(body) && WellPlaced(more, Inside(false))
    ensures WellPlaced(Kept(BodyText(body)) + more, Inside(false))
  {
    if body == [] {
      assert Kept(BodyText(body)) + more == more;
    } else {
      var rest := BodyText(body[1..]);
      BodyStaysInside(body[1..], more);
      UnitStaysInside(body[0], Kept(rest) + more);
      KeptConcat(UnitText(body[0]), rest);
      ConcatAssociates(Kept(UnitText(body[0])), Kept(rest), more);
    }
  }

  lemma LiteralIsWellPlaced(body: seq<LitUnit>, more: seq<Unit>)
    requires IsLiteral(body) && WellPlaced(more, Outside)
    ensures WellPlaced(Kept(PieceText(Literal(body))) + more, Outside)
  {
    var closing := [Keep('"')] + more;
    assert closing[1..] == more;
    BodyStaysInside(body, closing);
    LiteralUnits(body, more);
    var units := Kept(PieceText(Literal(body))) + more;
    assert units[0] == Keep('"') && units[1..] == Kept(BodyText(body)) + closing;
  }

  lemma LiteralUnits(body: seq<LitUnit>, more: seq<Unit>)
    ensures Kept(PieceText(Literal(body))) + more
            == [Keep('"')] + (Kept(BodyText(body)) + ([Keep('"')] + more))
  {
    var inner := BodyText(body);
    assert "\""[1..] == "" && Kept("\"") == [Keep('"')];
    KeptConcat("\"" + inner, "\"");
    KeptConcat("\"", inner);
  }

  lemma {:induction false} BracketsAgree(pieces: seq<Piece>)
    requires Decorated(pieces)
    ensures BracketNext(Units(pieces)) <==> ClosesAtOnce(pieces)
  {
    if pieces != [] {
      BracketsAgree(pieces[1..]);
      var p, more := pieces[0], Units(pieces[1..]);
      match p
      case Literal(body) => assert Units(pieces)[0] == Keep('"');
      case Outer(c) =>
        assert [c][1..] == "" && Kept([c]) == [Keep(c)];
        assert Units(pieces)[0] == Keep(c) && Units(pieces)[1..] == more;
      case _ => assert Units(pieces)[1..] == more;
    }
  }

  lemma {:induction false} PiecesAreWellPlaced(pieces: seq<Piece>)
    requires Decorated(pieces)
    ensures WellPlaced(Units(pieces), Outside)
  {
    if pieces != [] {
      PiecesAreWellPlaced(pieces[1..]);
      var p, more := pieces[0], Units(pieces[1..]);
      match p
      case Literal(body) => LiteralIsWellPlaced(body, more);
      case Outer(c) =>
        assert [c][1..] == "" && Kept([c]) == [Keep(c)];
        assert Units(pieces)[0] == Keep(c) && Units(pieces)[1..] == more;
      case LineComment(text) =>
        assert Units(pieces)[1..] == more;
        if pieces[1..] != [] {
          assert "\n"[1..] == "" && Kept("\n") == [Keep('\n')];
          assert more[0] == Keep('\n');
        }
      case _ =>
        assert Units(pieces)[1..] == more;
        BracketsAgree(pieces[1..]);
    }
  }

  /** A closing bracket comes next in the plain text where it does in the pieces. */
  lemma {:induction false} PlainCloses(pieces: seq<Piece>)
    requires Decorated(pieces)
    ensures Closes(Plainly(pieces)) <==> ClosesNext(pieces)
  {
    if pieces != [] {
      PlainCloses(pieces[1..]);
      var rest := Plainly(pieces[1..]);
      match pieces[0]
      case Literal(body) => assert Plainly(pieces)[0] == '"';
      case Outer(c) =>
        assert Plainly(pieces) == [c] + rest;
        ClosesCons(c, rest);
      case _ => assert Plainly(pieces) == rest;
    }
  }

  lemma UnitHasNoTrailingComma(u: LitUnit, rest: string)
    requires u.Plain? ==> u.c != '"' && u.c != '\\'
    requires NoTrailingComma(rest, Inside(false))
    ensures NoTrailingComma(UnitText(u) + rest, Inside(false))
  {
    var text := UnitText(u) + rest;
    match u
    case Plain(c) => assert text[0] == c && text[1..] == rest;
    case Escape(c) =>
      assert text[0] == '\\' && text[1..] == [c] + rest;
      assert text[1..][0] == c && text[1..][1..] == rest;
  }

  /** Inside a literal no comma is trailing. */
  lemma {:induction false} BodyHasNoTrailingComma(body: seq<LitUnit>, rest: string)
    requires IsLiteral(body) && NoTrailingComma(rest, Inside(false))
    ensures NoTrailingComma(BodyText(body) + rest, Inside(false))
  {
    if body == [] {
      assert BodyText(body) + rest == rest;
    } else {
      BodyHasNoTrailingComma(body[1..], rest);
      UnitHasNoTrailingComma(body[0], BodyText(body[1..]) + rest);
      ConcatAssociates(UnitText(body[0]), BodyText(body[1..]), rest);
    }
  }

  lemma OneMoreCharacter(c: char, rest: string, l: Lex)
    requires NoTrailingComma(rest, Next(l, c)) && (l == Outside ==> c != ',')
    ensures NoTrailingComma([c] + rest, l)
  {
    assert ([c] + rest)[1..] == rest;
  }

  lemma LiteralText(body: seq<LitUnit>, rest: string)
    ensures PieceText(Literal(body)) + rest == ['"'] + (BodyText(body) + (['"'] + rest))
  {
  }

  lemma LiteralHasNoTrailingComma(body: seq<LitUnit>, rest: string)
    requires IsLiteral(body) && NoTrailingComma(rest, Outside)
    ensures NoTrailingComma(PieceText(Literal(body)) + rest, Outside)
  {
    var closing := ['"'] + rest;
    OneMoreCharacter('"', rest, Inside(false));
    BodyHasNoTrailingComma(body, closing);
    OneMoreCharacter('"', BodyText(body) + closing, Outside);
    LiteralText(body, rest);
  }

  lemma {:induction false} PlainHasNoTrailingComma(pieces: seq<Piece>)
    requires Decorated(pieces)
    ensures NoTrailingComma(Plainly(pieces), Outside)
  {
    if pieces != [] {
      PlainHasNoTrailingComma(pieces[1..]);
      var rest := Plainly(pieces[1..]);
      match pieces[0]
      case Literal(body) => LiteralHasNoTrailingComma(body, rest);
      case Outer(c) =>
        PlainCloses(pieces[1..]);
        assert Plainly(pieces)[0] == c && Plainly(pieces)[1..] == rest;
      case _ => assert Plainly(pieces) == rest;
    }
  }

  /** Whatever its literals hold, comment signs, commas before brackets and escaped quotes among it, a text
      comes back from its decoration. */
  lemma LiteralsSurviveStripping(pieces: seq<Piece>)
    requires Decorated(pieces)
    ensures Stripped(Written(pieces)) == Plainly(pieces)
  {
    UnitsText(pieces);
    PiecesAreWellPlaced(pieces);
    PlainHasNoTrailingComma(pieces);
    StrippingUndoesDecoration(Units(pieces));
  }
}
