/** `LogFormatter::init` as it runs: index-moving loops over the pattern and a pass over
    what they collected, proved to compute the tokens of PatternSpec. */
module PatternScanner {
  import opened PatternSpec
  import opened PatternTheorems
  import opened PatternTiling
  import opened PatternItems

  function Entries(ts: seq<Token>): (es: seq<(string, string, int)>)
    ensures |es| == |ts| && forall k :: 0 <= k < |ts| ==> es[k] == Entry(ts[k])
  {
    seq(|ts|, k requires 0 <= k < |ts| => Entry(ts[k]))
  }

  function Items(es: seq<(string, string, int)>): (items: seq<Item>)
    ensures |items| == |es| && forall k :: 0 <= k < |es| ==> items[k] == ItemFor(es[k])
  {
    seq(|es|, k requires 0 <= k < |es| => ItemFor(es[k]))
  }

  /** The inner loop's result for the directive at i. */
  ghost predicate DirectiveAt(p: string, i: nat, n: nat, closed: bool, str: string, fmt: string)
    requires i < |p|
  {
    var l := Lex(p[i + 1..]);
    && (closed <==> l.Closed?)
    && (closed ==> i < n <= |p| && l.rest == p[n..] && l.token.Directive? && l.token.name == str && l.token.fmt == fmt)
  }

  lemma PlainDirective(p: string, i: nat, n: nat)
    requires i < n <= |p| && (forall k :: i < k < n ==> NameChar(p[k]))
    requires n < |p| ==> !NameChar(p[n]) && p[n] != '{'
    ensures DirectiveAt(p, i, n, true, p[i + 1..n], "")
  {
    var s := p[i + 1..];
    NameLenStops(s, n - i - 1);
    assert s[n - i - 1..] == p[n..] && s[..n - i - 1] == p[i + 1..n];
  }

  lemma BracedDirective(p: string, i: nat, b: nat, n: nat)
    requires i < b < n <= |p| && (forall k :: i < k < b ==> NameChar(p[k])) && p[b] == '{'
    requires (forall k :: b < k < n ==> p[k] != '}') && (n < |p| ==> p[n] == '}')
    ensures n < |p| ==> DirectiveAt(p, i, n + 1, true, p[i + 1..b], p[b + 1..n])
    ensures n == |p| ==> DirectiveAt(p, i, n, false, "", "")
  {
    var s := p[i + 1..];
    var k := b - i - 1;
    NameLenStops(s, k);
    var inner := s[k..][1..];
    assert inner == p[b + 1..] && s[k..][0] == '{';
    CloseAtStops(inner, n - b - 1);
    assert s[..k] == p[i + 1..b] && inner[..n - b - 1] == p[b + 1..n];
    assert n < |p| ==> inner[n - b..] == p[n + 1..];
  }

  /** The percent sign at i starts a directive. */
  predicate StartsDirective(p: string, i: nat)
    requires i < |p|
  {
    p[i] == '%' && !(i + 1 < |p| && p[i + 1] == '%')
  }

  /** The outer loop's progress: `done` has been pushed and the rest is still to come. */
  ghost predicate Progress(
    p: string, i: nat, lit: string, vec: seq<(string, string, int)>, unclosed: bool, done: seq<Token>)
  {
    && i <= |p| && done + Scan(p[i..], lit) == Scan(p, "")
    && vec == Entries(done) && (unclosed <==> Broken in done)
  }

  lemma FirstProgress(p: string)
    ensures Progress(p, 0, "", [], false, [])
  {
    assert p[0..] == p;
  }

  lemma EntriesConcat(a: seq<Token>, b: seq<Token>)
    ensures Entries(a + b) == Entries(a) + Entries(b)
  {
  }

  /** Pushing tokens that the scanner emits next. */
  lemma Pushed(
    p: string, i: nat, lit: string, vec: seq<(string, string, int)>, unclosed: bool, done: seq<Token>,
    more: seq<Token>, j: nat, lit': string)
    requires Progress(p, i, lit, vec, unclosed, done) && j <= |p|
    requires Scan(p[i..], lit) == more + Scan(p[j..], lit')
    ensures Progress(p, j, lit', vec + Entries(more), unclosed || Broken in more, done + more)
  {
    assert done + (more + Scan(p[j..], lit')) == (done + more) + Scan(p[j..], lit');
    EntriesConcat(done, more);
  }

  lemma CharProgress(p: string, i: nat, lit: string, vec: seq<(string, string, int)>, unclosed: bool, done: seq<Token>)
    requires Progress(p, i, lit, vec, unclosed, done) && i < |p| && !StartsDirective(p, i)
    ensures Progress(p, i + 1, lit + [p[i]], vec, unclosed, done)
  {
    assert p[i..][1..] == p[i + 1..];
  }

  /** What is pushed for a directive, after the literal collected before it. */
  function DirectiveEntries(lit: string, str: string, fmt: string): seq<(string, string, int)> {
    (if lit == "" then [] else [(lit, "", 0)]) + [(str, fmt, 1)]
  }

  lemma ScanAt(p: string, i: nat, lit: string, d: Token, n: nat)
    requires i < |p| && StartsDirective(p, i) && n <= |p| && Lex(p[i + 1..]) == Closed(d, p[n..])
    ensures Scan(p[i..], lit) == Flush(lit) + [d] + Scan(p[n..], "")
  {
    assert p[i..][1..] == p[i + 1..];
    ScanDirectiveAt(p[i..], lit, d, p[n..]);
  }

  lemma EntriesOfDirective(lit: string, d: Token)
    requires d.Directive?
    ensures Entries(Flush(lit) + [d]) == DirectiveEntries(lit, d.name, d.fmt) && Broken !in Flush(lit) + [d]
  {
  }

  lemma DirectiveProgress(
    p: string, i: nat, lit: string, vec: seq<(string, string, int)>, unclosed: bool, done: seq<Token>,
    n: nat, str: string, fmt: string) returns (done': seq<Token>)
    requires Progress(p, i, lit, vec, unclosed, done) && i < |p| && StartsDirective(p, i)
    requires DirectiveAt(p, i, n, true, str, fmt)
    ensures Progress(p, n, "", vec + DirectiveEntries(lit, str, fmt), unclosed, done')
  {
    var d := Lex(p[i + 1..]).token;
    var more := Flush(lit) + [d];
    ScanAt(p, i, lit, d, n);
    EntriesOfDirective(lit, d);
    Pushed(p, i, lit, vec, unclosed, done, more, n, "");
    done' := done + more;
  }

  lemma BrokenProgress(
    p: string, i: nat, lit: string, vec: seq<(string, string, int)>, unclosed: bool, done: seq<Token>)
    requires Progress(p, i, lit, vec, unclosed, done) && i < |p| && StartsDirective(p, i)
    requires Lex(p[i + 1..]).Unclosed?
    ensures Progress(p, i + 1, lit, vec + [Entry(Broken)], true, done + [Broken])
  {
    assert p[i..][1..] == p[i + 1..];
    assert Entries([Broken]) == [Entry(Broken)];
    Pushed(p, i, lit, vec, unclosed, done, [Broken], i + 1, lit);
  }

  lemma LastProgress(p: string, lit: string, vec: seq<(string, string, int)>, unclosed: bool, done: seq<Token>)
    requires Progress(p, |p|, lit, vec, unclosed, done)
    ensures Entries(Scan(p, "")) == vec + if lit == "" then [] else [(lit, "", 0)]
    ensures unclosed <==> Broken in Scan(p, "")
  {
  }

  class LogFormatter {
    const m_pattern: string
    var m_items: seq<Item>
    var m_error: bool

    constructor (pattern: string)
      ensures m_pattern == pattern
      ensures Describes(m_items, Scan(pattern, ""))
      ensures forall ts :: WellFormed(ts) && PrintAll(ts) == pattern ==> Describes(m_items, ts)
      ensures m_error <==> EndsInOpenBrace(pattern) || exists k :: UnknownAt(Scan(pattern, ""), k)
      ensures m_items == Items(Entries(Scan(pattern, "")))
    {
      m_pattern, m_items, m_error := pattern, [], false;
      new;
      Init();
      assert [] + Items(Entries(Scan(pattern, ""))) == Items(Entries(Scan(pattern, "")));
      ItemsDescribe(m_items, Scan(pattern, ""));
      FaultIff(pattern);
      forall ts | WellFormed(ts) && PrintAll(ts) == pattern ensures Describes(m_items, ts) {
        PrintedItems(m_items, ts);
      }
    }

    /** The inner loop: from the percent sign at i to the end of its directive. */
    method ReadDirective(i: nat) returns (n: nat, fmtStatus: int, str: string, fmt: string)
      requires i < |m_pattern|
      ensures DirectiveAt(m_pattern, i, n, fmtStatus == 0, str, fmt)
      ensures fmtStatus == 0 || fmtStatus == 1
    {
      n, fmtStatus, str, fmt := i + 1, 0, "", "";
      var fmtBegin := 0;
      ghost var end := |m_pattern|;
      while n < |m_pattern|
        invariant i < n <= |m_pattern| && fmt == ""
        invariant fmtStatus == 0 ==> forall k :: i < k < n ==> NameChar(m_pattern[k])
        invariant fmtStatus == 0 ==> str == if n == |m_pattern| then m_pattern[i + 1..] else ""
        invariant fmtStatus == 0 || fmtStatus == 1
        invariant fmtStatus == 1 ==>
          && i < fmtBegin < n && m_pattern[fmtBegin] == '{'
          && (forall k :: i < k < fmtBegin ==> NameChar(m_pattern[k]))
          && (forall k :: fmtBegin < k < n ==> m_pattern[k] != '}')
          && (n < |m_pattern| ==> str == m_pattern[i + 1..fmtBegin])
      {
        var c := m_pattern[n];
        if fmtStatus == 0 && !IsAlpha(c) && c != '{' && c != '}' {
          str := m_pattern[i + 1..n];
          PlainDirective(m_pattern, i, n);
          return;
        }
        if fmtStatus == 0 {
          if c == '{' {
            str := m_pattern[i + 1..n];
            fmtStatus := 1;
            fmtBegin := n;
            n := n + 1;
            continue;
          }
        } else {
          if c == '}' {
            fmt := m_pattern[fmtBegin + 1..n];
            fmtStatus := 0;
            BracedDirective(m_pattern, i, fmtBegin, n);
            n := n + 1;
            return;
          }
        }
        n := n + 1;
        if n == |m_pattern| {
          if str == "" {
            str := m_pattern[i + 1..];
          }
        }
      }
      if fmtStatus == 0 {
        assert m_pattern[i + 1..] == m_pattern[i + 1..n];
        PlainDirective(m_pattern, i, n);
      } else {
        BracedDirective(m_pattern, i, fmtBegin, n);
      }
    }

    /** The outer loop: what is pushed onto `vec`, and whether a brace was unclosed. */
    method Collect() returns (vec: seq<(string, string, int)>, unclosed: bool)
      ensures vec == Entries(Scan(m_pattern, ""))
      ensures unclosed <==> Broken in Scan(m_pattern, "")
    {
      vec, unclosed := [], false;
      var nstr := "";
      var i := 0;
      ghost var done: seq<Token> := [];
      FirstProgress(m_pattern);
      while i < |m_pattern|
        invariant Progress(m_pattern, i, nstr, vec, unclosed, done)
      {
        if m_pattern[i] != '%' {
          CharProgress(m_pattern, i, nstr, vec, unclosed, done);
          nstr := nstr + [m_pattern[i]];
          i := i + 1;
          continue;
        }
        if i + 1 < |m_pattern| && m_pattern[i + 1] == '%' {
          CharProgress(m_pattern, i, nstr, vec, unclosed, done);
          nstr := nstr + [m_pattern[i]];
          i := i + 1;
          continue;
        }
        var n, fmtStatus, str, fmt := ReadDirective(i);
        if fmtStatus == 0 {
          done := DirectiveProgress(m_pattern, i, nstr, vec, unclosed, done, n, str, fmt);
          vec := vec + DirectiveEntries(nstr, str, fmt);
          nstr := "";
          i := n;
        } else {
          BrokenProgress(m_pattern, i, nstr, vec, unclosed, done);
          done := done + [Broken];
          vec := vec + [("<<pattern_error>>", "", 0)];
          unclosed := true;
          i := i + 1;
        }
      }
      LastProgress(m_pattern, nstr, vec, unclosed, done);
      if nstr != "" {
        vec := vec + [(nstr, "", 0)];
      }
    }

    method Init()
      modifies this
      ensures m_items == old(m_items) + Items(Entries(Scan(m_pattern, "")))
      ensures m_error <==> old(m_error) || SomeFault(Scan(m_pattern, ""))
    {
      var vec, unclosed := Collect();
      if unclosed {
        m_error := true;
      }
      MakeItems(vec, Scan(m_pattern, ""));
    }

    /** The pass over `vec`: strings stay strings, known names get their item, and an
        unknown name gets an error text and raises the flag. */
    method MakeItems(vec: seq<(string, string, int)>, ghost all: seq<Token>)
      requires vec == Entries(all)
      modifies this
      ensures m_items == old(m_items) + Items(vec)
      ensures m_error <==> old(m_error) || exists k :: 0 <= k < |all| && all[k].Directive? && all[k].name !in NAMES
    {
      var k := 0;
      while k < |vec|
        invariant 0 <= k <= |vec|
        invariant m_items == old(m_items) + Items(vec)[..k]
        invariant m_error <==> old(m_error) || exists j :: 0 <= j < k && all[j].Directive? && all[j].name !in NAMES
      {
        var e := vec[k];
        assert Items(vec)[..k + 1] == Items(vec)[..k] + [ItemFor(e)];
        if e.2 == 0 {
          m_items := m_items + [StringItem(e.0)];
        } else if e.0 !in NAMES {
          m_items := m_items + [StringItem("<<error_format %" + e.0 + ">>")];
          m_error := true;
        } else {
          m_items := m_items + [FormatItem(e.0, e.1)];
        }
        k := k + 1;
      }
      assert Items(vec)[..k] == Items(vec);
    }
  }

  /** The error flag for the print of a well-formed list tells whether all its names
      are in the item table. */
  lemma ErrorMeansUnknownName(ts: seq<Token>)
    requires WellFormed(ts)
    ensures SomeFault(Scan(PrintAll(ts), "")) <==> exists k :: 0 <= k < |ts| && ts[k].Directive? && ts[k].name !in NAMES
  {
    RoundTrip(ts);
    WellFormedUnbroken(ts);
    NoBroken(ts);
  }

  lemma {:induction false} NoBroken(ts: seq<Token>)
    ensures BrokenCount(ts) == 0 <==> Broken !in ts
  {
    if ts != [] {
      NoBroken(ts[1..]);
      assert ts == [ts[0]] + ts[1..];
    }
  }

  /** A doubled percent sign is no escape: it yields the character and a nameless
      directive, which is an error. */
  lemma DoubledPercent()
    ensures Scan("%%", "") == [Literal("%"), Directive("", "", false)]
    ensures SomeFault(Scan("%%", ""))
  {
    assert "%%"[1..] == "%" && "%"[1..] == "";
    assert "" + ['%'] == "%";
    assert Lex("") == Closed(Directive("", "", false), "");
    assert Faulty(Scan("%%", "")[1]);
  }

  lemma PrintFront(t: Token, rest: seq<Token>, after: string)
    requires WellFormed(rest) && PrintAll(rest) == after && MayPrecede(t, Head(rest), after)
    ensures WellFormed([t] + rest) && PrintAll([t] + rest) == Print(t) + after
  {
    assert ([t] + rest)[1..] == rest;
  }

  /** A date with a format of its own and a tab, as at the start of the default pattern. */
  lemma DateAndTab()
    ensures Scan("%d{%H:%M}%T", "") == [Directive("d", "%H:%M", true), Directive("T", "", false)]
  {
    var date, tab := Directive("d", "%H:%M", true), Directive("T", "", false);
    PrintFront(tab, [], "");
    assert [tab] + [] == [tab] && Print(tab) + "" == "%T";
    PrintFront(date, [tab], "%T");
    assert [date] + [tab] == [date, tab] && Print(date) + "%T" == "%d{%H:%M}%T";
    RoundTrip([date, tab]);
  }

  lemma DateAndTabItems()
    ensures Describes([FormatItem("d", "%H:%M"), FormatItem("T", "")], Scan("%d{%H:%M}%T", ""))
  {
    DateAndTab();
  }
}
