/** Exactly which patterns the scanner takes apart without loss, in terms of the pattern,
    and what is lost of the others. */
module PatternTiling {
  import opened Wrappers
  import opened PatternSpec
  import opened PatternTheorems

  /** The pattern p, with a closing brace added, is the print of the tokens ts and of one
      more directive, whose format that brace ends. */
  predicate CutOff(p: string, ts: seq<Token>, name: string, inner: string) {
    WellFormed(ts + [Directive(name, inner, true)]) && p + "}" == PrintAll(ts + [Directive(name, inner, true)])
  }

  /** The last directive of p lacks its closing brace. */
  ghost predicate EndsInOpenBrace(p: string) {
    exists ts, name, inner :: CutOff(p, ts, name, inner)
  }

  // ---------------------------------------------------------------- what is cut off is broken

  /** The text of a directive up to its missing brace. */
  function OpenText(name: string, inner: string): string {
    "%" + (name + ("{" + inner))
  }

  lemma PrintOpen(name: string, inner: string)
    ensures Print(Directive(name, inner, true)) == OpenText(name, inner) + "}"
  {
  }

  lemma PrintOne(d: Token)
    ensures PrintAll([d]) == Print(d)
  {
  }

  lemma PrintLast(ts: seq<Token>, name: string, inner: string)
    ensures PrintAll(ts + [Directive(name, inner, true)]) == PrintAll(ts) + (OpenText(name, inner) + "}")
  {
    PrintConcat(ts, [Directive(name, inner, true)]);
    PrintOne(Directive(name, inner, true));
    PrintOpen(name, inner);
  }

  lemma DropLast(a: string, b: string)
    requires a + "}" == b + "}"
    ensures a == b
  {
    assert a == (a + "}")[..|a|] && b == (b + "}")[..|b|];
  }

  lemma CutOffText(p: string, ts: seq<Token>, name: string, inner: string)
    requires CutOff(p, ts, name, inner)
    ensures p == PrintAll(ts) + OpenText(name, inner)
  {
    PrintLast(ts, name, inner);
    var open := OpenText(name, inner);
    assert PrintAll(ts) + (open + "}") == (PrintAll(ts) + open) + "}";
    DropLast(p, PrintAll(ts) + open);
  }

  lemma CloseAtNone(s: string)
    requires '}' !in s
    ensures CloseAt(s) == |s|
  {
    CloseAtStops(s, |s|);
  }

  lemma LexOpen(name: string, inner: string)
    requires AllNameChars(name) && '}' !in inner
    ensures Lex(name + ("{" + inner)) == Unclosed
  {
    var tail := "{" + inner;
    LexSplit(name, tail);
    CloseAtNone(inner);
    assert tail[1..] == inner;
  }

  // ---------------------------------------------------------------- what is printed

  /** A percent sign in front of s starts a directive with an opening brace. */
  predicate Opens(s: string) {
    NameLen(s) < |s| && s[NameLen(s)] == '{'
  }

  /** Text without closing braces loses the percent sign of each directive that opens one. */
  function Strip(x: string): string {
    if x == "" then ""
    else if x[0] == '%' && Opens(x[1..]) then Strip(x[1..])
    else [x[0]] + Strip(x[1..])
  }

  lemma {:induction false} StripName(name: string, rest: string)
    requires '%' !in name
    ensures Strip(name + rest) == name + Strip(rest)
  {
    if name == "" {
      assert name + rest == rest;
    } else {
      assert (name + rest)[1..] == name[1..] + rest;
      StripName(name[1..], rest);
    }
  }

  lemma StripOne(x: string)
    requires x != "" && x[0] == '%' && !Opens(x[1..])
    ensures Strip(x) == "%" + Strip(x[1..])
  {
  }

  /** A directive that opens no brace is kept as it is. */
  lemma StripPlain(x: string, name: string, rest: string)
    requires x == "%" + (name + rest) && '%' !in name && !Opens(name + rest)
    ensures Strip(x) == "%" + name + Strip(rest)
  {
    assert x[1..] == name + rest;
    StripOne(x);
    StripName(name, rest);
    Regroup("%", name, Strip(rest));
  }

  lemma StripChar(x: string)
    requires x != "" && (x[0] != '%' || (|x| > 1 && x[1] == '%'))
    ensures Strip(x) == [x[0]] + Strip(x[1..])
  {
  }

  lemma OpensUnclosed(s: string)
    requires Opens(s) && '}' !in s
    ensures Lex(s) == Unclosed
  {
    CloseAtNone(s[NameLen(s)..][1..]);
  }

  lemma PrintBroken(ts: seq<Token>)
    ensures PrintAll([Broken] + ts) == PrintAll(ts)
    ensures BrokenCount([Broken] + ts) == 1 + BrokenCount(ts)
  {
    assert ([Broken] + ts)[1..] == ts;
    assert "" + PrintAll(ts) == PrintAll(ts);
  }

  lemma {:induction false} ScanOpen(x: string, lit: string)
    requires '}' !in x
    ensures PrintAll(Scan(x, lit)) == lit + Strip(x)
    decreases |x|, 1
  {
    if x == "" {
      assert PrintAll(Flush(lit)) == lit;
    } else if x[0] != '%' || (|x| > 1 && x[1] == '%') {
      ScanOpen(x[1..], lit + [x[0]]);
      StripChar(x);
      Regroup(lit, [x[0]], Strip(x[1..]));
    } else if Opens(x[1..]) {
      OpensUnclosed(x[1..]);
      ScanOpen(x[1..], lit);
      PrintBroken(Scan(x[1..], lit));
    } else {
      OpenPlain(x, lit);
    }
  }

  lemma ScanPlain(x: string, lit: string, name: string, rest: string)
    requires x == "%" + (name + rest) && AllNameChars(name) && !(|x| > 1 && x[1] == '%')
    requires rest != "" ==> !NameChar(rest[0]) && rest[0] != '{'
    ensures Scan(x, lit) == Flush(lit) + [Directive(name, "", false)] + Scan(rest, "")
  {
    assert x[1..] == name + rest;
    LexSplit(name, rest);
  }

  lemma {:induction false} OpenPlain(x: string, lit: string)
    requires x != "" && x[0] == '%' && !(|x| > 1 && x[1] == '%') && '}' !in x && !Opens(x[1..])
    ensures PrintAll(Scan(x, lit)) == lit + Strip(x)
    decreases |x|, 0
  {
    var s := x[1..];
    var n := NameLen(s);
    PlainParts(x, s[..n], s[n..]);
    ScanPlain(x, lit, s[..n], s[n..]);
    ScanOpen(s[n..], "");
    PlainPrints(x, lit, s[..n], s[n..]);
  }

  lemma PlainParts(x: string, name: string, rest: string)
    requires x != "" && x[0] == '%' && NameLen(x[1..]) == |name| && x[1..][..|name|] == name && x[1..][|name|..] == rest
    requires !Opens(x[1..])
    ensures x == "%" + (name + rest) && (rest != "" ==> !NameChar(rest[0]) && rest[0] != '{')
  {
    assert x[1..] == name + rest;
  }

  lemma PlainPrints(x: string, lit: string, name: string, rest: string)
    requires x == "%" + (name + rest) && '%' !in name && !Opens(name + rest)
    requires PrintAll(Scan(rest, "")) == "" + Strip(rest)
    ensures PrintAll(Flush(lit) + [Directive(name, "", false)] + Scan(rest, "")) == lit + Strip(x)
  {
    var d := Directive(name, "", false);
    assert "" + Strip(rest) == Strip(rest);
    Prepended(lit, d, Scan(rest, ""));
    StripPlain(x, name, rest);
    Regroup(lit, "%" + name, Strip(rest));
    assert Print(d) == "%" + name;
  }

  /** A cut-off directive is broken, and its name and brace become ordinary text. */
  lemma CutBreaks(name: string, inner: string, lit: string)
    requires AllNameChars(name) && '}' !in inner
    ensures Scan(OpenText(name, inner), lit) == [Broken] + Scan(name + ("{" + inner), lit)
  {
    var s := OpenText(name, inner);
    assert s[1..] == name + ("{" + inner);
    assert s[1] == if name == "" then '{' else name[0];
    LexOpen(name, inner);
  }

  lemma CutRest(name: string, inner: string, lit: string)
    requires AllNameChars(name)
    ensures Scan(name + ("{" + inner), lit) == Scan(inner, lit + (name + "{"))
  {
    assert name + ("{" + inner) == (name + "{") + inner;
    ScanText(name + "{", inner, lit);
  }

  lemma ScanCut(name: string, inner: string, lit: string)
    requires AllNameChars(name) && '}' !in inner
    ensures BrokenCount(Scan(OpenText(name, inner), lit)) > 0
    ensures PrintAll(Scan(OpenText(name, inner), lit)) == lit + (name + "{" + Strip(inner))
  {
    CutBreaks(name, inner, lit);
    PrintBroken(Scan(name + ("{" + inner), lit));
    CutRest(name, inner, lit);
    ScanOpen(inner, lit + (name + "{"));
    Regroup(lit, name + "{", Strip(inner));
  }

  /** A token may stand before cut-off text if it may stand before it with its brace. */
  lemma PrecedesCut(t: Token, next: Option<Token>, after: string)
    requires MayPrecede(t, next, after + "}") && after != ""
    ensures MayPrecede(t, next, after)
  {
    assert (after + "}")[0] == after[0];
    if t.Literal? {
      forall i | 0 <= i < |t.text| && t.text[i] == '%'
        ensures i + 1 < |t.text + after| && (t.text + after)[i + 1] == '%'
      {
        assert (t.text + (after + "}"))[i + 1] == '%';
      }
    }
  }

  /** What is known of the scan behind a token holds, with the token, of the scan before it. */
  lemma PastToken(t: Token, next: Option<Token>, after: string, lit: string, kept: string)
    requires MayPrecede(t, next, after)
    requires var lit' := if t.Literal? then lit + t.text else "";
      BrokenCount(Scan(after, lit')) > 0 && PrintAll(Scan(after, lit')) == lit' + kept
    ensures BrokenCount(Scan(Print(t) + after, lit)) > 0
    ensures PrintAll(Scan(Print(t) + after, lit)) == lit + Print(t) + kept
  {
    if t.Literal? {
      ScanText(t.text, after, lit);
    } else {
      ScanDirective(t, next, after, lit);
      Prepended(lit, t, Scan(after, ""));
      assert "" + kept == kept;
    }
  }

  lemma {:induction false} ScanThrough(ts: seq<Token>, name: string, inner: string, lit: string)
    requires WellFormed(ts + [Directive(name, inner, true)])
    ensures var s := PrintAll(ts) + OpenText(name, inner);
      && BrokenCount(Scan(s, lit)) > 0
      && PrintAll(Scan(s, lit)) == lit + (PrintAll(ts) + (name + "{" + Strip(inner)))
    decreases |ts|
  {
    var all := ts + [Directive(name, inner, true)];
    var kept := name + "{" + Strip(inner);
    if ts == [] {
      assert all[0] == Directive(name, inner, true);
      assert "" + OpenText(name, inner) == OpenText(name, inner) && "" + kept == kept;
      ScanCut(name, inner, lit);
    } else {
      assert all[0] == ts[0] && all[1..] == ts[1..] + [Directive(name, inner, true)];
      var after := PrintAll(ts[1..]) + OpenText(name, inner);
      AfterCut(ts[1..], name, inner);
      PrecedesCut(ts[0], Head(all[1..]), after);
      ScanThrough(ts[1..], name, inner, if ts[0].Literal? then lit + ts[0].text else "");
      PastToken(ts[0], Head(all[1..]), after, lit, PrintAll(ts[1..]) + kept);
      Regroup(Print(ts[0]), PrintAll(ts[1..]), OpenText(name, inner));
      Regroup(Print(ts[0]), PrintAll(ts[1..]), kept);
      Regroup(lit, Print(ts[0]), PrintAll(ts[1..]) + kept);
    }
  }

  lemma AfterCut(ts: seq<Token>, name: string, inner: string)
    ensures PrintAll(ts + [Directive(name, inner, true)]) == PrintAll(ts) + OpenText(name, inner) + "}"
    ensures PrintAll(ts) + OpenText(name, inner) != ""
  {
    PrintLast(ts, name, inner);
    Regroup(PrintAll(ts), OpenText(name, inner), "}");
  }

  // ---------------------------------------------------------------- what is broken is cut off

  lemma SplitName(s: string) returns (name: string, tail: string)
    ensures s == name + tail && AllNameChars(name) && (tail != "" ==> !NameChar(tail[0]))
    ensures Lex(s) == LexTail(name, tail)
  {
    var n := NameLen(s);
    name, tail := s[..n], s[n..];
  }

  lemma LexBeforeBrace(s: string, name: string, tail: string)
    requires s == name + tail && AllNameChars(name) && tail != "" && !NameChar(tail[0])
    ensures Lex(s + "}") == LexTail(name, tail + "}")
  {
    assert s + "}" == name + (tail + "}");
    LexSplit(name, tail + "}");
  }

  /** A closing brace at the end only lengthens the rest of a directive that ends before. */
  lemma TailLonger(name: string, tail: string)
    requires tail != "" && LexTail(name, tail).Closed?
    ensures LexTail(name, tail + "}") == Closed(LexTail(name, tail).token, LexTail(name, tail).rest + "}")
  {
    if tail[0] == '{' {
      var inner := tail[1..];
      var c := CloseAt(inner);
      CloseAtStops(inner + "}", c);
      assert (tail + "}")[1..] == inner + "}";
      assert (inner + "}")[..c] == inner[..c] && (inner + "}")[c + 1..] == inner[c + 1..] + "}";
    }
  }

  lemma LexLonger(s: string)
    requires Lex(s).Closed? && Lex(s).rest != ""
    ensures Lex(s + "}") == Closed(Lex(s).token, Lex(s).rest + "}")
  {
    var name, tail := SplitName(s);
    LexBeforeBrace(s, name, tail);
    TailLonger(name, tail);
  }

  /** It closes a directive that lacks one. */
  lemma TailClosed(name: string, tail: string) returns (inner: string)
    requires LexTail(name, tail).Unclosed?
    ensures LexTail(name, tail + "}") == Closed(Directive(name, inner, true), "")
  {
    inner := tail[1..];
    assert (tail + "}")[1..] == inner + "}";
    CloseAtStops(inner + "}", |inner|);
    assert (inner + "}")[..|inner|] == inner && (inner + "}")[|inner| + 1..] == "";
  }

  lemma LexClosed(s: string) returns (name: string, inner: string)
    requires Lex(s).Unclosed?
    ensures Lex(s + "}") == Closed(Directive(name, inner, true), "")
  {
    var tail;
    name, tail := SplitName(s);
    LexBeforeBrace(s, name, tail);
    inner := TailClosed(name, tail);
  }

  lemma LonePercent(lit: string)
    ensures BrokenCount(Scan("%", lit)) == 0
  {
    assert "%"[1..] == "";
    assert Lex("") == Closed(Directive("", "", false), "");
    ScanDirectiveAt("%", lit, Directive("", "", false), "");
  }

  lemma StartsSame(s: string)
    requires s != "" && !(s[0] != '%' || (|s| > 1 && s[1] == '%')) && |s| > 1
    ensures var s' := s + "}"; s'[0] == '%' && !(|s'| > 1 && s'[1] == '%') && s'[1..] == s[1..] + "}"
  {
  }

  lemma EndsSame(a: seq<Token>, d: Token, ts: seq<Token>, last: Token)
    ensures a + [d] + (ts + [last]) == (a + [d] + ts) + [last]
  {
  }

  /** The scan of a pattern with a broken directive, given its missing brace, ends in
      that directive and has no broken one. */
  lemma {:induction false} ScanClosed(s: string, lit: string) returns (ts: seq<Token>, name: string, inner: string)
    requires BrokenCount(Scan(s, lit)) > 0
    ensures Scan(s + "}", lit) == ts + [Directive(name, inner, true)]
    ensures BrokenCount(Scan(s + "}", lit)) == 0
    decreases |s|, 1
  {
    assert s != "" && (s + "}")[1..] == s[1..] + "}";
    if s[0] != '%' || (|s| > 1 && s[1] == '%') {
      ts, name, inner := ScanClosed(s[1..], lit + [s[0]]);
    } else {
      ts, name, inner := ScanClosedAt(s, lit);
    }
  }

  lemma {:induction false} ScanClosedAt(s: string, lit: string) returns (ts: seq<Token>, name: string, inner: string)
    requires s != "" && !(s[0] != '%' || (|s| > 1 && s[1] == '%')) && BrokenCount(Scan(s, lit)) > 0
    ensures Scan(s + "}", lit) == ts + [Directive(name, inner, true)]
    ensures BrokenCount(Scan(s + "}", lit)) == 0
    decreases |s|, 0
  {
    var l := Lex(s[1..]);
    if |s| == 1 {
      assert s == "%";
      LonePercent(lit);
    }
    StartsSame(s);
    if l.Closed? {
      ScanDirectiveAt(s, lit, l.token, l.rest);
      LexLonger(s[1..]);
      ScanDirectiveAt(s + "}", lit, l.token, l.rest + "}");
      ts, name, inner := ScanClosed(l.rest, "");
      EndsSame(Flush(lit), l.token, ts, Directive(name, inner, true));
      ts := Flush(lit) + [l.token] + ts;
    } else {
      name, inner := LexClosed(s[1..]);
      ScanDirectiveAt(s + "}", lit, Directive(name, inner, true), "");
      ts := Flush(lit);
      assert ts + [Directive(name, inner, true)] + [] == ts + [Directive(name, inner, true)];
    }
  }

  // ---------------------------------------------------------------- the theorems

  /** Concatenating the tokens' source texts gives back the pattern if and only if the
      pattern does not end in a directive whose brace is not closed. */
  lemma TilingIff(p: string)
    ensures PrintAll(Scan(p, "")) == p <==> !EndsInOpenBrace(p)
    ensures BrokenCount(Scan(p, "")) == 0 <==> !EndsInOpenBrace(p)
  {
    ScanTiles(p, "");
    assert "" + p == p;
    if ts, name, inner :| CutOff(p, ts, name, inner) {
      CutOffText(p, ts, name, inner);
      ScanThrough(ts, name, inner, "");
    } else if BrokenCount(Scan(p, "")) > 0 {
      var ts, name, inner := ScanClosed(p, "");
      ScanTiles(p + "}", "");
      assert "" + (p + "}") == p + "}";
      ScanWellFormed(p + "}", "");
      assert CutOff(p, ts, name, inner);
    }
  }

  /** What such a pattern prints instead: the directive loses its percent sign, and so
      does every directive after its brace that opens one. */
  lemma LostPercents(p: string, ts: seq<Token>, name: string, inner: string)
    requires CutOff(p, ts, name, inner)
    ensures p == PrintAll(ts) + ("%" + (name + ("{" + inner)))
    ensures PrintAll(Scan(p, "")) == PrintAll(ts) + (name + "{" + Strip(inner))
  {
    CutOffText(p, ts, name, inner);
    ScanThrough(ts, name, inner, "");
    assert "" + (PrintAll(ts) + (name + "{" + Strip(inner))) == PrintAll(ts) + (name + "{" + Strip(inner));
  }

  lemma OpenBracePosition(p: string) returns (i: nat)
    requires EndsInOpenBrace(p)
    ensures i < |p| && p[i] == '{' && forall j :: i < j < |p| ==> p[j] != '}'
  {
    var ts, name, inner :| CutOff(p, ts, name, inner);
    CutOffText(p, ts, name, inner);
    CutOffInner(ts, name, inner);
    i := BraceIn(PrintAll(ts), name, inner);
  }

  lemma BraceIn(before: string, name: string, inner: string) returns (i: nat)
    requires '}' !in inner
    ensures var p := before + OpenText(name, inner);
      i < |p| && p[i] == '{' && forall j :: i < j < |p| ==> p[j] != '}'
  {
    var p := before + OpenText(name, inner);
    i := |before| + 1 + |name|;
    assert p[i + 1..] == inner;
    forall j | i < j < |p| ensures p[j] != '}' {
      assert p[j] == p[i + 1..][j - i - 1];
    }
  }

  /** A pattern in which every opening brace has a closing one after it is safe. */
  lemma BracesFollowed(p: string)
    requires forall i :: 0 <= i < |p| && p[i] == '{' ==> exists j :: i < j < |p| && p[j] == '}'
    ensures !EndsInOpenBrace(p) && PrintAll(Scan(p, "")) == p
  {
    TilingIff(p);
    if EndsInOpenBrace(p) {
      var i := OpenBracePosition(p);
    }
  }

  lemma {:induction false} CutOffInner(ts: seq<Token>, name: string, inner: string)
    requires WellFormed(ts + [Directive(name, inner, true)])
    ensures AllNameChars(name) && '}' !in inner
  {
    var all := ts + [Directive(name, inner, true)];
    if ts == [] {
      assert all[0] == Directive(name, inner, true);
    } else {
      assert all[1..] == ts[1..] + [Directive(name, inner, true)];
      CutOffInner(ts[1..], name, inner);
    }
  }

  /** A pattern that fails. */
  lemma OpenBraceFails()
    ensures EndsInOpenBrace("%d{") && PrintAll(Scan("%d{", "")) == "d{"
  {
    var d := Directive("d", "", true);
    assert [d][1..] == [] && [] + [d] == [d];
    assert PrintAll([d]) == Print(d) + "" == "%d{}";
    assert CutOff("%d{", [], "d", "");
    LostPercents("%d{", [], "d", "");
  }
}
