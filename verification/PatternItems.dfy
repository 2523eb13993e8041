/** What the items of a compiled pattern are, and when its error flag is raised. */
module PatternItems {
  import opened PatternSpec
  import opened PatternTheorems
  import opened PatternTiling

  /** The characters of a directive's name, by their ASCII codes: A to Z, a to z, and the
      closing brace. */
  lemma NameCharacters(c: char)
    ensures NameChar(c) <==> 65 <= c as int <= 90 || 97 <= c as int <= 122 || c as int == 125
  {
  }

  /** The names that have an item of their own. */
  predicate Known(name: string) {
    && |name| == 1
    && var c := name[0];
       || c == 'm' || c == 'p' || c == 'r' || c == 'c' || c == 't' || c == 'n'
       || c == 'd' || c == 'f' || c == 'l' || c == 'T' || c == 'F' || c == 'N'
  }

  lemma KnownNames(name: string)
    ensures name in NAMES <==> Known(name)
  {
    if |name| == 1 {
      assert name == [name[0]];
    }
  }

  /** The item of a token: a literal's text, a known directive's name with that directive's
      own format, and an error text for anything else. */
  predicate ItemIs(item: Item, t: Token) {
    match t
    case Literal(text) => item == StringItem(text)
    case Directive(name, fmt, _) =>
      if Known(name) then item == FormatItem(name, fmt) else item == StringItem("<<error_format %" + name + ">>")
    case Broken => item == StringItem("<<pattern_error>>")
  }

  /** One item for each token, in order. */
  predicate Describes(items: seq<Item>, ts: seq<Token>) {
    |items| == |ts| && forall k :: 0 <= k < |ts| ==> ItemIs(items[k], ts[k])
  }

  /** A directive whose name has no item. */
  predicate UnknownAt(ts: seq<Token>, k: int) {
    0 <= k < |ts| && ts[k].Directive? && !Known(ts[k].name)
  }

  lemma ItemForToken(t: Token)
    ensures ItemIs(ItemFor(Entry(t)), t)
  {
    if t.Directive? {
      KnownNames(t.name);
    }
  }

  lemma FaultyToken(t: Token)
    ensures Faulty(t) <==> t == Broken || (t.Directive? && !Known(t.name))
  {
    if t.Directive? {
      KnownNames(t.name);
    }
  }

  lemma ItemsDescribe(items: seq<Item>, ts: seq<Token>)
    requires |items| == |ts| && forall k :: 0 <= k < |ts| ==> items[k] == ItemFor(Entry(ts[k]))
    ensures Describes(items, ts)
  {
    forall k | 0 <= k < |ts| ensures ItemIs(items[k], ts[k]) {
      ItemForToken(ts[k]);
    }
  }

  ghost predicate SomeFault(ts: seq<Token>) {
    exists k :: 0 <= k < |ts| && Faulty(ts[k])
  }

  /** The error flag is raised exactly for a pattern that ends in an open brace or has a
      directive with an unknown name. */
  lemma FaultIff(p: string)
    ensures SomeFault(Scan(p, "")) <==> EndsInOpenBrace(p) || exists k :: UnknownAt(Scan(p, ""), k)
  {
    var ts := Scan(p, "");
    TilingIff(p);
    BrokenSomewhere(ts);
    forall k | 0 <= k < |ts| ensures Faulty(ts[k]) <==> ts[k] == Broken || UnknownAt(ts, k) {
      FaultyToken(ts[k]);
    }
  }

  lemma {:induction false} BrokenSomewhere(ts: seq<Token>)
    ensures BrokenCount(ts) > 0 <==> exists k :: 0 <= k < |ts| && ts[k] == Broken
  {
    if ts != [] {
      BrokenSomewhere(ts[1..]);
      if BrokenCount(ts[1..]) > 0 {
        var k :| 0 <= k < |ts| - 1 && ts[1..][k] == Broken;
        assert ts[k + 1] == Broken;
      }
      if k :| 0 <= k < |ts| && ts[k] == Broken {
        assert k > 0 ==> ts[1..][k - 1] == Broken;
      }
    }
  }

  /** The items of the print of a well-formed list are those of the list. */
  lemma PrintedItems(items: seq<Item>, ts: seq<Token>)
    requires WellFormed(ts) && Describes(items, Scan(PrintAll(ts), ""))
    ensures Describes(items, ts)
  {
    RoundTrip(ts);
  }
}
