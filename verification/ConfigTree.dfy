/** The configuration tree (vity/config.cc): the dotted names under which the nodes of
    a YAML document are offered to the registered variables. */
module ConfigTree {
  /** A YAML node; `dump` is the text a node that is no scalar is written out as. */
  datatype Node =
    | Scalar(text: string)
    | Mapping(entries: seq<Child>, dump: string)
    | Other(dump: string)

  datatype Child = Child(key: string, node: Node)

  function Text(n: Node): string {
    if n.Scalar? then n.text else n.dump
  }

  /** The characters of "abcdefghijklmnopqrstuvwxyz._0123456789". */
  predicate ValidChar(c: char) {
    'a' <= c <= 'z' || c == '.' || c == '_' || '0' <= c <= '9'
  }

  predicate ValidName(s: string) {
    forall i :: 0 <= i < |s| ==> ValidChar(s[i])
  }

  function Join(prefix: string, key: string): string {
    if prefix == "" then key else prefix + "." + key
  }

  datatype Member = Member(path: string, node: Node)

  /** Every node of the tree with its path, in preorder, valid or not. */
  function Walk(prefix: string, node: Node): seq<Member>
    decreases node, 1
  {
    [Member(prefix, node)] + if node.Mapping? then WalkEntries(prefix, node.entries) else []
  }

  function WalkEntries(prefix: string, entries: seq<Child>): seq<Member>
    decreases entries, 0
  {
    if entries == [] then []
    else Walk(Join(prefix, entries[0].key), entries[0].node) + WalkEntries(prefix, entries[1..])
  }

  function OnlyValid(ms: seq<Member>): seq<Member> {
    if ms == [] then []
    else (if ValidName(ms[0].path) then [ms[0]] else []) + OnlyValid(ms[1..])
  }

  lemma {:induction false} OnlyValidConcat(a: seq<Member>, b: seq<Member>)
    ensures OnlyValid(a + b) == OnlyValid(a) + OnlyValid(b)
  {
    if a == [] {
      assert a + b == b;
    } else {
      assert (a + b)[1..] == a[1..] + b;
      OnlyValidConcat(a[1..], b);
    }
  }

  /** Below an invalid path there are only invalid paths. */
  lemma {:induction false} InvalidBelow(prefix: string, node: Node)
    requires !ValidName(prefix)
    ensures OnlyValid(Walk(prefix, node)) == []
    decreases node, 1
  {
    var below := if node.Mapping? then WalkEntries(prefix, node.entries) else [];
    assert Walk(prefix, node)[1..] == below;
    if node.Mapping? {
      InvalidEntries(prefix, node.entries);
    }
  }

  lemma {:induction false} InvalidEntries(prefix: string, entries: seq<Child>)
    requires !ValidName(prefix)
    ensures OnlyValid(WalkEntries(prefix, entries)) == []
    decreases entries, 0
  {
    if entries != [] {
      var path := Join(prefix, entries[0].key);
      var i :| 0 <= i < |prefix| && !ValidChar(prefix[i]);
      assert path[i] == prefix[i];
      InvalidBelow(path, entries[0].node);
      InvalidEntries(prefix, entries[1..]);
      OnlyValidConcat(Walk(path, entries[0].node), WalkEntries(prefix, entries[1..]));
    }
  }

  class MemberList {
    var items: seq<Member>
    constructor ()
      ensures items == []
    {
      items := [];
    }
  }

  /** What the entries from position k on contribute. */
  function Pending(prefix: string, entries: seq<Child>, k: nat): seq<Member>
    requires k <= |entries|
  {
    OnlyValid(WalkEntries(prefix, entries[k..]))
  }

  lemma PendingStep(prefix: string, entries: seq<Child>, k: nat)
    requires k < |entries|
    ensures Pending(prefix, entries, k)
         == OnlyValid(Walk(Join(prefix, entries[k].key), entries[k].node)) + Pending(prefix, entries, k + 1)
  {
    assert entries[k..][1..] == entries[k + 1..];
    OnlyValidConcat(Walk(Join(prefix, entries[k].key), entries[k].node), WalkEntries(prefix, entries[k + 1..]));
  }

  /** `ListAllMember`: an invalid name cuts off its whole subtree, and yet exactly the
      nodes with a valid path are listed, in preorder. */
  method ListAllMember(prefix: string, node: Node, output: MemberList)
    modifies output
    ensures output.items == old(output.items) + OnlyValid(Walk(prefix, node))
    decreases node, 1
  {
    if !ValidName(prefix) {
      InvalidBelow(prefix, node);
      return;
    }
    output.items := output.items + [Member(prefix, node)];
    if node.Mapping? {
      ListEntries(prefix, node.entries, output);
    }
    assert Walk(prefix, node)[1..] == if node.Mapping? then WalkEntries(prefix, node.entries) else [];
  }

  /** The loop over a mapping's entries. */
  method ListEntries(prefix: string, entries: seq<Child>, output: MemberList)
    modifies output
    ensures output.items == old(output.items) + OnlyValid(WalkEntries(prefix, entries))
    decreases entries, 0
  {
    assert entries[0..] == entries;
    var k := 0;
    while k < |entries|
      invariant 0 <= k <= |entries|
      invariant output.items + Pending(prefix, entries, k) == old(output.items) + Pending(prefix, entries, 0)
    {
      PendingStep(prefix, entries, k);
      ListAllMember(Join(prefix, entries[k].key), entries[k].node, output);
      k := k + 1;
    }
  }

  // ---------------------------------------------------------------- lower case

  function LowerChar(c: char): char {
    if 'A' <= c <= 'Z' then c + 32 as char else c
  }

  function Lower(s: string): (l: string)
    ensures |l| == |s|
  {
    seq(|s|, i requires 0 <= i < |s| => LowerChar(s[i]))
  }

  /** Lower-casing a listed name changes nothing. */
  lemma LowerIsIdentity(s: string)
    requires ValidName(s)
    ensures Lower(s) == s
  {
  }

  lemma {:induction false} ListedAreValid(ms: seq<Member>)
    ensures forall m :: m in OnlyValid(ms) ==> ValidName(m.path) && m in ms
  {
    if ms != [] {
      ListedAreValid(ms[1..]);
      assert ms == [ms[0]] + ms[1..];
    }
  }

  /** The name a listed node is looked up under is its path. */
  lemma ListedUnderTheirPath(prefix: string, node: Node)
    ensures forall m :: m in OnlyValid(Walk(prefix, node)) ==> Lower(m.path) == m.path
  {
    ListedAreValid(Walk(prefix, node));
    forall m | m in OnlyValid(Walk(prefix, node)) ensures Lower(m.path) == m.path {
      LowerIsIdentity(m.path);
    }
  }
}
