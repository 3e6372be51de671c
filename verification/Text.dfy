/** String operations of the two host languages that several modules use. */
module Text {

  /** The characters that the JavaScript class `\s` and `String.prototype.trim` treat as white space. */
  predicate IsSpace(c: char) {
    || '\t' <= c <= '\r' || c == ' ' || c == '\U{A0}' || c == '\U{1680}'
    || '\U{2000}' <= c <= '\U{200A}' || c == '\U{2028}' || c == '\U{2029}'
    || c == '\U{202F}' || c == '\U{205F}' || c == '\U{3000}' || c == '\U{FEFF}'
  }

  /** The characters that Python's `str.strip` treats as white space. */
  predicate IsPythonSpace(c: char) {
    || '\t' <= c <= '\r' || '\U{1C}' <= c <= ' ' || c == '\U{85}' || c == '\U{A0}' || c == '\U{1680}'
    || '\U{2000}' <= c <= '\U{200A}' || c == '\U{2028}' || c == '\U{2029}'
    || c == '\U{202F}' || c == '\U{205F}' || c == '\U{3000}'
  }

  function StripStart(s: string, blank: char -> bool): string {
    if s != "" && blank(s[0]) then StripStart(s[1..], blank) else s
  }

  function StripEnd(s: string, blank: char -> bool): string {
    if s != "" && blank(s[|s| - 1]) then StripEnd(s[..|s| - 1], blank) else s
  }

  function Strip(s: string, blank: char -> bool): string {
    StripEnd(StripStart(s, blank), blank)
  }

  /** No blank at either end. */
  predicate BareEnds(s: string, blank: char -> bool) {
    s != "" ==> !blank(s[0]) && !blank(s[|s| - 1])
  }

  /** JavaScript's `trim`. */
  function Trim(s: string): string {
    Strip(s, IsSpace)
  }

  predicate Trimmed(s: string) {
    BareEnds(s, IsSpace)
  }

  function Join(parts: seq<string>, separator: string): string {
    if parts == [] then ""
    else if |parts| == 1 then parts[0]
    else parts[0] + separator + Join(parts[1..], separator)
  }

  lemma {:induction false} StripEndIsPrefix(s: string, blank: char -> bool)
    ensures StripEnd(s, blank) <= s
    ensures StripEnd(s, blank) != "" ==> !blank(StripEnd(s, blank)[|StripEnd(s, blank)| - 1])
  {
    if s != "" && blank(s[|s| - 1]) {
      StripEndIsPrefix(s[..|s| - 1], blank);
    }
  }

  lemma {:induction false} StripStartIsSuffix(s: string, blank: char -> bool)
    ensures StripStart(s, blank) != "" ==> !blank(StripStart(s, blank)[0])
  {
    if s != "" && blank(s[0]) {
      StripStartIsSuffix(s[1..], blank);
    }
  }

  /** Stripping removes exactly the outer blanks: the result is stripped, and a stripped string is its own
      result. */
  lemma StripBaresEnds(s: string, blank: char -> bool)
    ensures BareEnds(Strip(s, blank), blank)
    ensures BareEnds(s, blank) <==> Strip(s, blank) == s
  {
    StripStartIsSuffix(s, blank);
    StripEndIsPrefix(StripStart(s, blank), blank);
    if BareEnds(s, blank) {
      assert StripStart(s, blank) == s;
    }
  }

  lemma ConcatAssociates<T>(a: seq<T>, b: seq<T>, c: seq<T>)
    ensures (a + b) + c == a + (b + c)
  {
  }

  /** Taking the head off a concatenation. */
  lemma TailOfConcat<T>(a: seq<T>, b: seq<T>)
    requires a != []
    ensures (a + b)[0] == a[0] && (a + b)[1..] == a[1..] + b
  {
  }

  /** Among the ASCII characters both languages strip the same six, and Python the four separators too;
      beyond them JavaScript alone strips the byte order mark, and Python alone the next line character. */
  lemma SpacesCompared(c: char)
    ensures c < '\U{80}' ==> (IsSpace(c) <==> c in {'\t', '\n', '\U{0B}', '\U{0C}', '\r', ' '})
    ensures IsPythonSpace(c) != IsSpace(c) <==>
            c in {'\U{1C}', '\U{1D}', '\U{1E}', '\U{1F}', '\U{85}', '\U{FEFF}'}
    ensures c in {'\U{FEFF}'} ==> IsSpace(c)
  {
  }

  lemma {:induction false} JoinOfBoth(a: seq<string>, b: seq<string>, separator: string)
    requires a != [] && b != []
    ensures Join(a + b, separator) == Join(a, separator) + separator + Join(b, separator)
  {
    if |a| == 1 {
      assert (a + b)[1..] == b;
    } else {
      JoinOfBoth(a[1..], b, separator);
      TailOfConcat(a, b);
      assert a[0] + separator + (Join(a[1..], separator) + separator + Join(b, separator))
          == (a[0] + separator + Join(a[1..], separator)) + separator + Join(b, separator);
    }
  }
}
