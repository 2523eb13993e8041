/** The log pattern language that `LogFormatter::init` (vity/log.cc) accepts. */
module PatternSpec {
  import opened Wrappers

  predicate IsAlpha(c: char) {
    'a' <= c <= 'z' || 'A' <= c <= 'Z'
  }

  /** The characters the scanner takes into a directive's name. */
  predicate NameChar(c: char) {
    IsAlpha(c) || c == '}'
  }

  /** The length of the longest prefix of name characters. */
  function NameLen(s: string): (n: nat)
    ensures n <= |s|
    ensures forall i :: 0 <= i < n ==> NameChar(s[i])
    ensures n < |s| ==> !NameChar(s[n])
  {
    if s == "" || !NameChar(s[0]) then 0 else 1 + NameLen(s[1..])
  }

  /** The position of the first closing brace, or |s|. */
  function CloseAt(s: string): (n: nat)
    ensures n <= |s|
    ensures forall i :: 0 <= i < n ==> s[i] != '}'
    ensures n < |s| ==> s[n] == '}'
  {
    if s == "" || s[0] == '}' then 0 else 1 + CloseAt(s[1..])
  }

  /** `braced` tells "%d{}" from "%d".  Broken is a directive whose brace is not closed;
      init puts the text "<<pattern_error>>" in its place. */
  datatype Token =
    | Literal(text: string)
    | Directive(name: string, fmt: string, braced: bool)
    | Broken

  /** What comes after a directive's name: perhaps a format in braces, and the rest. */
  function LexTail(name: string, tail: string): (l: Lexed)
    ensures l.Closed? ==> |l.rest| <= |tail|
  {
    if tail != "" && tail[0] == '{' then
      var inner := tail[1..];
      var c := CloseAt(inner);
      if c < |inner| then Closed(Directive(name, inner[..c], true), inner[c + 1..]) else Unclosed
    else Closed(Directive(name, "", false), tail)
  }

  /** A directive at the start of s (after its percent sign), and what follows it. */
  datatype Lexed = Closed(token: Token, rest: string) | Unclosed

  function Lex(s: string): (l: Lexed)
    ensures l.Closed? ==> |l.rest| <= |s|
  {
    var n := NameLen(s);
    LexTail(s[..n], s[n..])
  }

  function Flush(lit: string): seq<Token> {
    if lit == "" then [] else [Literal(lit)]
  }

  /** A percent sign followed by another one is an ordinary character (and the second
      one is looked at again); any other percent sign starts a directive.  An unclosed
      directive loses its percent sign, and the rest is scanned as if it had not been
      there. */
  function Scan(s: string, lit: string): seq<Token>
    decreases |s|
  {
    if s == "" then Flush(lit)
    else if s[0] != '%' || (|s| > 1 && s[1] == '%') then Scan(s[1..], lit + [s[0]])
    else
      match Lex(s[1..])
      case Closed(token, rest) => Flush(lit) + [token] + Scan(rest, "")
      case Unclosed => [Broken] + Scan(s[1..], lit)
  }

  // ---------------------------------------------------------------- printing

  function Print(t: Token): string {
    match t
    case Literal(text) => text
    case Directive(name, fmt, braced) => "%" + name + (if braced then "{" + fmt + "}" else "")
    case Broken => ""
  }

  function PrintAll(ts: seq<Token>): string {
    if ts == [] then "" else Print(ts[0]) + PrintAll(ts[1..])
  }

  predicate AllNameChars(s: string) {
    forall i :: 0 <= i < |s| ==> NameChar(s[i])
  }

  /** Every percent sign of text is followed by another one when `after` comes next. */
  predicate PercentsPaired(text: string, after: string) {
    forall i :: 0 <= i < |text| && text[i] == '%' ==> i + 1 < |text + after| && (text + after)[i + 1] == '%'
  }

  /** Whether token t may stand in front of tokens that print as `after`. */
  predicate MayPrecede(t: Token, next: Option<Token>, after: string) {
    match t
    case Literal(text) => text != "" && !(next.Some? && next.value.Literal?) && PercentsPaired(text, after)
    case Directive(name, fmt, braced) =>
      && AllNameChars(name)
      && (if braced then '}' !in fmt
          else fmt == "" && (after != "" ==>
                 !NameChar(after[0]) && after[0] != '{' && (name == "" ==> after[0] != '%')))
    case Broken => false
  }

  function Head(ts: seq<Token>): Option<Token> {
    if ts == [] then None else Some(ts[0])
  }

  /** The token lists that patterns without an unclosed brace stand for. */
  predicate WellFormed(ts: seq<Token>) {
    ts != [] ==> MayPrecede(ts[0], Head(ts[1..]), PrintAll(ts[1..])) && WellFormed(ts[1..])
  }

  function BrokenCount(ts: seq<Token>): nat {
    if ts == [] then 0 else (if ts[0] == Broken then 1 else 0) + BrokenCount(ts[1..])
  }

  // ---------------------------------------------------------------- items

  datatype Item = StringItem(text: string) | FormatItem(name: string, fmt: string)

  const NAMES: set<string> := {"m", "p", "r", "c", "t", "n", "d", "f", "l", "T", "F", "N"}

  /** What init pushes onto `vec` for a token: string, format, and 1 for a directive. */
  function Entry(t: Token): (string, string, int) {
    match t
    case Literal(text) => (text, "", 0)
    case Directive(name, fmt, _) => (name, fmt, 1)
    case Broken => ("<<pattern_error>>", "", 0)
  }

  function ItemFor(e: (string, string, int)): Item {
    if e.2 == 0 then StringItem(e.0)
    else if e.0 in NAMES then FormatItem(e.0, e.1)
    else StringItem("<<error_format %" + e.0 + ">>")
  }

  predicate Faulty(t: Token) {
    t == Broken || (t.Directive? && t.name !in NAMES)
  }
}
