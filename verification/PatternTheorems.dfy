/** The pattern scanner against the printer: tiling, round trips, and the error flag. */
module PatternTheorems {
  import opened Wrappers
  import opened PatternSpec

  lemma {:induction false} PrintConcat(a: seq<Token>, b: seq<Token>)
    ensures PrintAll(a + b) == PrintAll(a) + PrintAll(b)
  {
    if a == [] {
      assert a + b == b;
    } else {
      assert (a + b)[1..] == a[1..] + b;
      PrintConcat(a[1..], b);
      assert PrintAll(a + b) == Print(a[0]) + PrintAll(a[1..] + b);
    }
  }

  lemma {:induction false} CountConcat(a: seq<Token>, b: seq<Token>)
    ensures BrokenCount(a + b) == BrokenCount(a) + BrokenCount(b)
  {
    if a == [] {
      assert a + b == b;
    } else {
      assert (a + b)[1..] == a[1..] + b;
      CountConcat(a[1..], b);
    }
  }

  lemma NameLenStops(s: string, n: nat)
    requires n <= |s| && (forall k :: 0 <= k < n ==> NameChar(s[k])) && (n < |s| ==> !NameChar(s[n]))
    ensures NameLen(s) == n
  {
  }

  lemma CloseAtStops(s: string, n: nat)
    requires n <= |s| && (forall k :: 0 <= k < n ==> s[k] != '}') && (n < |s| ==> s[n] == '}')
    ensures CloseAt(s) == n
  {
  }

  /** Printing and appending, grouped the way the scanner takes text apart. */
  lemma BracedText(name: string, fmt: string, rest: string)
    ensures Print(Directive(name, fmt, true)) + rest == "%" + (name + ("{" + (fmt + ("}" + rest))))
  {
  }

  lemma PlainText(name: string, rest: string)
    ensures Print(Directive(name, "", false)) + rest == "%" + (name + rest)
  {
  }

  lemma BracedTiles(name: string, inner: string, c: nat)
    requires c < |inner| && inner[c] == '}'
    ensures Print(Directive(name, inner[..c], true)) + inner[c + 1..] == "%" + (name + ("{" + inner))
  {
    BracedText(name, inner[..c], inner[c + 1..]);
    assert inner == inner[..c] + ("}" + inner[c + 1..]);
  }

  lemma TailTiles(name: string, tail: string)
    requires LexTail(name, tail).Closed?
    ensures var l := LexTail(name, tail); l.token.Directive? && Print(l.token) + l.rest == "%" + (name + tail)
  {
    if tail != "" && tail[0] == '{' {
      var inner := tail[1..];
      assert tail == "{" + inner;
      BracedTiles(name, inner, CloseAt(inner));
    } else {
      PlainText(name, tail);
    }
  }

  /** A directive and what follows it are the text it was lexed from. */
  lemma LexTiles(s: string)
    ensures Lex(s).Closed? ==> Lex(s).token.Directive? && Print(Lex(s).token) + Lex(s).rest == "%" + s
  {
    var n := NameLen(s);
    assert s == s[..n] + s[n..];
    if Lex(s).Closed? {
      TailTiles(s[..n], s[n..]);
    }
  }

  /** A name ends where no name character follows. */
  lemma LexSplit(name: string, tail: string)
    requires AllNameChars(name) && (tail != "" ==> !NameChar(tail[0]))
    ensures Lex(name + tail) == LexTail(name, tail)
  {
    var s := name + tail;
    NameLenIs(name, tail);
    assert s[..|name|] == name && s[|name|..] == tail;
  }

  /** Putting the literal collected so far and a directive in front of scanned tokens. */
  lemma Prepended(lit: string, d: Token, tail: seq<Token>)
    requires d.Directive?
    ensures var ts := Flush(lit) + [d] + tail;
      PrintAll(ts) == lit + Print(d) + PrintAll(tail) && BrokenCount(ts) == BrokenCount(tail)
  {
    assert Flush(lit) + [d] + tail == Flush(lit) + ([d] + tail);
    assert ([d] + tail)[1..] == tail;
    PrintConcat(Flush(lit), [d] + tail);
    CountConcat(Flush(lit), [d] + tail);
    assert PrintAll(Flush(lit)) == lit;
  }

  /** A directive is flushed in front of, and the scan goes on behind it. */
  lemma ScanDirectiveAt(s: string, lit: string, token: Token, rest: string)
    requires s != "" && s[0] == '%' && !(|s| > 1 && s[1] == '%') && Lex(s[1..]) == Closed(token, rest)
    ensures token.Directive? && Scan(s, lit) == Flush(lit) + [token] + Scan(rest, "")
    ensures BrokenCount(Scan(s, lit)) == BrokenCount(Scan(rest, ""))
  {
    LexTiles(s[1..]);
    Prepended(lit, token, Scan(rest, ""));
  }

  lemma TileClosed(s: string, lit: string, d: Token, rest: string, tail: seq<Token>)
    requires d.Directive? && Print(d) + rest == s
    requires |PrintAll(tail)| + BrokenCount(tail) == |rest|
    requires BrokenCount(tail) == 0 ==> PrintAll(tail) == rest
    ensures var ts := Flush(lit) + [d] + tail;
      && |PrintAll(ts)| + BrokenCount(ts) == |lit + s|
      && (BrokenCount(ts) == 0 ==> PrintAll(ts) == lit + s)
  {
    Prepended(lit, d, tail);
    Regroup(lit, Print(d), rest);
  }

  lemma Regroup(a: string, b: string, c: string)
    ensures a + b + c == a + (b + c)
  {
  }

  /** The tokens print to the scanned text, less one percent sign for each unclosed
      directive. */
  lemma {:induction false} ScanTiles(s: string, lit: string)
    ensures |PrintAll(Scan(s, lit))| + BrokenCount(Scan(s, lit)) == |lit + s|
    ensures BrokenCount(Scan(s, lit)) == 0 ==> PrintAll(Scan(s, lit)) == lit + s
    decreases |s|
  {
    if s == "" {
      assert PrintAll(Flush(lit)) == lit;
    } else if s[0] != '%' || (|s| > 1 && s[1] == '%') {
      assert (lit + [s[0]]) + s[1..] == lit + s;
      ScanTiles(s[1..], lit + [s[0]]);
    } else {
      var l := Lex(s[1..]);
      if l.Closed? {
        LexTiles(s[1..]);
        ScanTiles(l.rest, "");
        assert "" + l.rest == l.rest && "%" + s[1..] == s;
        TileClosed(s, lit, l.token, l.rest, Scan(l.rest, ""));
      } else {
        ScanTiles(s[1..], lit);
        assert ([Broken] + Scan(s[1..], lit))[1..] == Scan(s[1..], lit);
      }
    }
  }

  // ---------------------------------------------------------------- round trip

  lemma {:induction false} NameLenIs(name: string, after: string)
    requires AllNameChars(name) && (after != "" ==> !NameChar(after[0]))
    ensures NameLen(name + after) == |name|
  {
    if name == "" {
      assert name + after == after;
    } else {
      assert (name + after)[1..] == name[1..] + after;
      NameLenIs(name[1..], after);
    }
  }

  lemma {:induction false} CloseAtIs(fmt: string, after: string)
    requires '}' !in fmt
    ensures CloseAt(fmt + ("}" + after)) == |fmt|
  {
    if fmt == "" {
      assert fmt + ("}" + after) == "}" + after;
    } else {
      assert (fmt + ("}" + after))[1..] == fmt[1..] + ("}" + after);
      CloseAtIs(fmt[1..], after);
    }
  }

  lemma TailBraced(name: string, fmt: string, after: string)
    requires '}' !in fmt
    ensures LexTail(name, "{" + (fmt + ("}" + after))) == Closed(Directive(name, fmt, true), after)
  {
    var inner := fmt + ("}" + after);
    CloseAtIs(fmt, after);
    assert ("{" + inner)[1..] == inner;
    assert inner[..|fmt|] == fmt && inner[|fmt| + 1..] == after;
  }

  /** A directive that may stand before `after` is lexed back from its print. */
  lemma LexPrinted(d: Token, next: Option<Token>, after: string)
    requires d.Directive? && MayPrecede(d, next, after)
    ensures Lex((Print(d) + after)[1..]) == Closed(d, after)
  {
    if d.braced {
      var tail := "{" + (d.fmt + ("}" + after));
      BracedText(d.name, d.fmt, after);
      LexSplit(d.name, tail);
      TailBraced(d.name, d.fmt, after);
      assert (Print(d) + after)[1..] == d.name + tail;
    } else {
      PlainText(d.name, after);
      LexSplit(d.name, after);
      assert (Print(d) + after)[1..] == d.name + after;
    }
  }

  /** Text with paired percent signs is collected into the literal. */
  lemma {:induction false} ScanText(text: string, after: string, lit: string)
    requires PercentsPaired(text, after)
    ensures Scan(text + after, lit) == Scan(after, lit + text)
    decreases |text|
  {
    if text == "" {
      assert text + after == after && lit + text == lit;
    } else {
      var s := text + after;
      assert s[1..] == text[1..] + after;
      forall i | 0 <= i < |text| - 1 && text[1..][i] == '%' ensures i + 1 < |s[1..]| && s[1..][i + 1] == '%' {
        assert text[i + 1] == '%';
      }
      assert lit + [s[0]] + text[1..] == lit + text;
      ScanText(text[1..], after, lit + [s[0]]);
    }
  }

  /** The percent sign of a printed directive is not taken for an ordinary character. */
  lemma PercentAlone(d: Token, next: Option<Token>, after: string)
    requires d.Directive? && MayPrecede(d, next, after)
    ensures var s := Print(d) + after; s != "" && s[0] == '%' && !(|s| > 1 && s[1] == '%')
  {
    var tail := (if d.braced then "{" + d.fmt + "}" else "") + after;
    assert Print(d) + after == "%" + (d.name + tail);
  }

  /** A printed directive ends the collected literal and is scanned back. */
  lemma ScanDirective(d: Token, next: Option<Token>, after: string, lit: string)
    requires d.Directive? && MayPrecede(d, next, after)
    ensures Scan(Print(d) + after, lit) == Flush(lit) + [d] + Scan(after, "")
  {
    PercentAlone(d, next, after);
    LexPrinted(d, next, after);
  }

  lemma FlushFirst(a: seq<Token>, d: Token, tail: seq<Token>)
    ensures a + [d] + tail == a + (Flush("") + [d] + tail)
  {
  }

  /** Before a directive, or before the end, the collected literal is flushed. */
  lemma ScanFlush(rest: seq<Token>, after: string, lit: string)
    requires WellFormed(rest) && after == PrintAll(rest) && !(rest != [] && rest[0].Literal?)
    ensures Scan(after, lit) == Flush(lit) + Scan(after, "")
  {
    if rest != [] {
      var d, text := rest[0], PrintAll(rest[1..]);
      ScanDirective(d, Head(rest[1..]), text, lit);
      ScanDirective(d, Head(rest[1..]), text, "");
      FlushFirst(Flush(lit), d, Scan(text, ""));
    }
  }

  lemma LiteralBack(text: string, rest: seq<Token>, after: string)
    requires text != "" && PercentsPaired(text, after) && Scan(after, text) == Flush(text) + rest
    ensures Scan(text + after, "") == [Literal(text)] + rest
  {
    ScanText(text, after, "");
    assert "" + text == text;
  }

  lemma DirectiveBack(d: Token, next: Option<Token>, rest: seq<Token>, after: string)
    requires d.Directive? && MayPrecede(d, next, after) && Scan(after, "") == rest
    ensures Scan(Print(d) + after, "") == [d] + rest
  {
    ScanDirective(d, next, after, "");
    assert Flush("") + [d] == [d];
  }

  /** Scanning what a well-formed token list prints gives back the list. */
  lemma {:induction false} RoundTrip(ts: seq<Token>)
    requires WellFormed(ts)
    ensures Scan(PrintAll(ts), "") == ts
    decreases |ts|
  {
    if ts != [] {
      RoundTrip(ts[1..]);
      var rest, after := ts[1..], PrintAll(ts[1..]);
      assert ts == [ts[0]] + rest;
      if ts[0].Literal? {
        ScanFlush(rest, after, ts[0].text);
        LiteralBack(ts[0].text, rest, after);
      } else {
        DirectiveBack(ts[0], Head(rest), rest, after);
      }
    }
  }

  // ---------------------------------------------------------------- the converse

  lemma LexWellFormed(s: string, next: Option<Token>)
    requires Lex(s).Closed? && !(s != "" && s[0] == '%')
    ensures MayPrecede(Lex(s).token, next, Lex(s).rest)
  {
  }

  /** A literal and a directive in front of a well-formed list. */
  lemma JoinWellFormed(lit: string, d: Token, tail: seq<Token>)
    requires d.Directive? && WellFormed(tail) && MayPrecede(d, Head(tail), PrintAll(tail))
    requires PercentsPaired(lit, Print(d) + PrintAll(tail))
    ensures WellFormed(Flush(lit) + [d] + tail)
  {
    var ts := [d] + tail;
    assert ts[1..] == tail;
    assert WellFormed(ts);
    assert Flush(lit) + [d] + tail == Flush(lit) + ts;
    if lit == "" {
      assert Flush(lit) + ts == ts;
    } else {
      assert (Flush(lit) + ts)[1..] == ts;
    }
  }

  lemma DirectiveWellFormed(s: string, lit: string)
    requires s != "" && s[0] == '%' && !(|s| > 1 && s[1] == '%') && PercentsPaired(lit, s)
    requires var l := Lex(s[1..]); l.Closed? && var tail := Scan(l.rest, ""); BrokenCount(tail) == 0 && WellFormed(tail)
    ensures var l := Lex(s[1..]); WellFormed(Flush(lit) + [l.token] + Scan(l.rest, ""))
  {
    var l := Lex(s[1..]);
    var tail := Scan(l.rest, "");
    ScanTiles(l.rest, "");
    assert "" + l.rest == l.rest && "%" + s[1..] == s;
    LexTiles(s[1..]);
    LexWellFormed(s[1..], Head(tail));
    JoinWellFormed(lit, l.token, tail);
  }

  /** The scanner's output is well-formed when no brace is unclosed. */
  lemma {:induction false} ScanWellFormed(s: string, lit: string)
    requires BrokenCount(Scan(s, lit)) == 0 && PercentsPaired(lit, s)
    ensures WellFormed(Scan(s, lit))
    decreases |s|
  {
    if s == "" {
      assert lit != "" ==> [Literal(lit)][1..] == [];
    } else if s[0] != '%' || (|s| > 1 && s[1] == '%') {
      PairedStep(lit, s);
      ScanWellFormed(s[1..], lit + [s[0]]);
    } else {
      var l := Lex(s[1..]);
      if l.Closed? {
        LexTiles(s[1..]);
        Prepended(lit, l.token, Scan(l.rest, ""));
        ScanWellFormed(l.rest, "");
        DirectiveWellFormed(s, lit);
      }
    }
  }

  lemma PairedStep(lit: string, s: string)
    requires s != "" && PercentsPaired(lit, s) && (s[0] == '%' ==> |s| > 1 && s[1] == '%')
    ensures PercentsPaired(lit + [s[0]], s[1..])
  {
    assert lit + [s[0]] + s[1..] == lit + s;
  }

  /** Exactly the well-formed lists survive printing and scanning. */
  lemma RoundTripIff(ts: seq<Token>)
    ensures WellFormed(ts) <==> Scan(PrintAll(ts), "") == ts && BrokenCount(ts) == 0
  {
    if WellFormed(ts) {
      RoundTrip(ts);
      WellFormedUnbroken(ts);
    } else if Scan(PrintAll(ts), "") == ts && BrokenCount(ts) == 0 {
      ScanWellFormed(PrintAll(ts), "");
    }
  }

  lemma {:induction false} WellFormedUnbroken(ts: seq<Token>)
    requires WellFormed(ts)
    ensures BrokenCount(ts) == 0
  {
    if ts != [] {
      WellFormedUnbroken(ts[1..]);
    }
  }
}
