/** The names under which a document's nodes are offered, by the nodes' positions in the
    tree: what path a position has, which positions are listed, in which order, and what
    a load leaves in a variable. */
module ConfigPaths {
  import opened Wrappers
  import opened ConfigTree

  /** Which entry to take at each level, from the root. */
  type Position = seq<nat>

  function NodeAt(root: Node, pos: Position): Option<Node>
    decreases |pos|
  {
    if pos == [] then Some(root)
    else if root.Mapping? && pos[0] < |root.entries| then NodeAt(root.entries[pos[0]].node, pos[1..])
    else None
  }

  function KeysAt(root: Node, pos: Position): seq<string>
    requires NodeAt(root, pos).Some?
    decreases |pos|
  {
    if pos == [] then [] else [root.entries[pos[0]].key] + KeysAt(root.entries[pos[0]].node, pos[1..])
  }

  /** Each key with a dot in front. */
  function Dots(keys: seq<string>): string {
    if keys == [] then "" else "." + keys[0] + Dots(keys[1..])
  }

  /** The keys joined by dots; empty keys at the front leave no trace. */
  function Path(keys: seq<string>): string {
    if keys == [] then ""
    else if keys[0] == "" then Path(keys[1..])
    else keys[0] + Dots(keys[1..])
  }

  function PathAt(root: Node, pos: Position): string
    requires NodeAt(root, pos).Some?
  {
    Path(KeysAt(root, pos))
  }

  /** The text a variable gets to parse. */
  function TextOf(node: Node): string {
    match node
    case Scalar(text) => text
    case Mapping(_, dump) => dump
    case Other(dump) => dump
  }

  /** The order of a preorder walk: a node before what is below it, and entries in turn. */
  predicate Before(a: Position, b: Position)
    decreases |a|
  {
    b != [] && (a == [] || a[0] < b[0] || (a[0] == b[0] && Before(a[1..], b[1..])))
  }

  // ---------------------------------------------------------------- the walk

  /** The path that keys lead to from a prefix. */
  function From(prefix: string, keys: seq<string>): string {
    if prefix == "" then Path(keys) else prefix + Dots(keys)
  }

  lemma FromJoin(prefix: string, key: string, keys: seq<string>)
    ensures From(Join(prefix, key), keys) == From(prefix, [key] + keys)
  {
    assert ([key] + keys)[1..] == keys;
    if prefix != "" {
      assert prefix + "." + key + Dots(keys) == prefix + ("." + key + Dots(keys));
    }
  }

  /** Member m is the node at pos below node, under the path that leads there from prefix. */
  predicate Names(m: Member, prefix: string, node: Node, pos: Position) {
    NodeAt(node, pos).Some? && m == Member(From(prefix, KeysAt(node, pos)), NodeAt(node, pos).value)
  }

  predicate InOrder(ps: seq<Position>) {
    forall i, j :: 0 <= i < j < |ps| ==> Before(ps[i], ps[j])
  }

  /** ps are the positions of ms, in preorder. */
  ghost predicate Lists(ms: seq<Member>, prefix: string, node: Node, ps: seq<Position>) {
    |ps| == |ms| && (forall i :: 0 <= i < |ms| ==> Names(ms[i], prefix, node, ps[i])) && InOrder(ps)
  }

  function Below(k: nat, ps: seq<Position>): (r: seq<Position>)
    ensures |r| == |ps| && forall i :: 0 <= i < |ps| ==> r[i] == [k] + ps[i]
  {
    seq(|ps|, i requires 0 <= i < |ps| => [k] + ps[i])
  }

  lemma NamesBelow(m: Member, prefix: string, node: Node, k: nat, pos: Position)
    requires node.Mapping? && k < |node.entries|
    requires Names(m, Join(prefix, node.entries[k].key), node.entries[k].node, pos)
    ensures Names(m, prefix, node, [k] + pos)
  {
    assert ([k] + pos)[1..] == pos;
    FromJoin(prefix, node.entries[k].key, KeysAt(node.entries[k].node, pos));
  }

  lemma BelowLists(ms: seq<Member>, prefix: string, node: Node, k: nat, ps: seq<Position>)
    requires node.Mapping? && k < |node.entries|
    requires Lists(ms, Join(prefix, node.entries[k].key), node.entries[k].node, ps)
    ensures Lists(ms, prefix, node, Below(k, ps))
  {
    var qs := Below(k, ps);
    forall i | 0 <= i < |ms| ensures Names(ms[i], prefix, node, qs[i]) {
      NamesBelow(ms[i], prefix, node, k, ps[i]);
    }
    forall i, j | 0 <= i < j < |qs| ensures Before(qs[i], qs[j]) {
      assert qs[i][1..] == ps[i] && qs[j][1..] == ps[j];
    }
  }

  lemma ListsConcat(a: seq<Member>, b: seq<Member>, prefix: string, node: Node, ps: seq<Position>, qs: seq<Position>)
    requires Lists(a, prefix, node, ps) && Lists(b, prefix, node, qs)
    requires forall p, q :: p in ps && q in qs ==> Before(p, q)
    ensures Lists(a + b, prefix, node, ps + qs)
  {
    OrderConcat(ps, qs);
    var ms, rs := a + b, ps + qs;
    forall i | 0 <= i < |ms| ensures Names(ms[i], prefix, node, rs[i]) {
      assert if i < |a| then ms[i] == a[i] && rs[i] == ps[i] else ms[i] == b[i - |a|] && rs[i] == qs[i - |a|];
    }
  }

  lemma OrderConcat(ps: seq<Position>, qs: seq<Position>)
    requires InOrder(ps) && InOrder(qs) && forall p, q :: p in ps && q in qs ==> Before(p, q)
    ensures InOrder(ps + qs)
  {
    var rs := ps + qs;
    forall i, j | 0 <= i < j < |rs| ensures Before(rs[i], rs[j]) {
      if j < |ps| {
        assert rs[i] == ps[i] && rs[j] == ps[j];
      } else if i >= |ps| {
        assert rs[i] == qs[i - |ps|] && rs[j] == qs[j - |ps|];
      } else {
        assert rs[i] in ps && rs[j] in qs;
      }
    }
  }

  /** Every node of the tree is walked over, under its path, in preorder. */
  lemma {:induction false} WalkLists(prefix: string, node: Node) returns (ps: seq<Position>)
    ensures Lists(Walk(prefix, node), prefix, node, ps)
    ensures forall pos :: NodeAt(node, pos).Some? ==> pos in ps
    decreases node, 1
  {
    assert From(prefix, []) == prefix;
    if node.Mapping? {
      var qs := EntriesList(prefix, node, 0);
      assert node.entries[0..] == node.entries;
      ps := [[]] + qs;
      RootFirst(prefix, node, WalkEntries(prefix, node.entries), qs);
    } else {
      ps := [[]];
      assert Walk(prefix, node) == [Member(prefix, node)];
    }
  }

  lemma RootFirst(prefix: string, node: Node, below: seq<Member>, qs: seq<Position>)
    requires Lists(below, prefix, node, qs) && forall q :: q in qs ==> q != []
    ensures Lists([Member(prefix, node)] + below, prefix, node, [[]] + qs)
  {
    assert From(prefix, []) == prefix;
    ListsConcat([Member(prefix, node)], below, prefix, node, [[]], qs);
  }

  /** The nodes below the entries from k on. */
  lemma {:induction false} EntriesList(prefix: string, node: Node, k: nat) returns (ps: seq<Position>)
    requires node.Mapping? && k <= |node.entries|
    ensures Lists(WalkEntries(prefix, node.entries[k..]), prefix, node, ps)
    ensures forall p :: p in ps ==> p != [] && p[0] >= k
    ensures forall pos: Position :: pos != [] && pos[0] >= k && NodeAt(node, pos).Some? ==> pos in ps
    decreases node, 0, |node.entries| - k
  {
    var entries := node.entries;
    if k == |entries| {
      ps := [];
    } else {
      var child := entries[k];
      var sub := WalkLists(Join(prefix, child.key), child.node);
      var rest := EntriesList(prefix, node, k + 1);
      var here := Below(k, sub);
      BelowLists(Walk(Join(prefix, child.key), child.node), prefix, node, k, sub);
      assert entries[k..][0] == child && entries[k..][1..] == entries[k + 1..];
      ListsConcat(Walk(Join(prefix, child.key), child.node), WalkEntries(prefix, entries[k + 1..]), prefix, node, here, rest);
      ps := here + rest;
      forall pos: Position | pos != [] && pos[0] >= k && NodeAt(node, pos).Some? ensures pos in ps {
        if pos[0] == k {
          BelowHas(k, sub, pos);
        }
      }
    }
  }

  lemma BelowHas(k: nat, sub: seq<Position>, pos: Position)
    requires pos != [] && pos[0] == k && pos[1..] in sub
    ensures pos in Below(k, sub)
  {
    var i :| 0 <= i < |sub| && sub[i] == pos[1..];
    assert Below(k, sub)[i] == pos;
  }

  // ---------------------------------------------------------------- the list

  /** ps are exactly the positions whose path is a valid name. */
  ghost predicate ExactlyValid(root: Node, ps: seq<Position>) {
    forall pos :: pos in ps <==> NodeAt(root, pos).Some? && ValidName(PathAt(root, pos))
  }

  /** qs are the positions of those of ms whose path is valid. */
  ghost predicate Filters(ms: seq<Member>, ps: seq<Position>, qs: seq<Position>)
    requires |ps| == |ms|
  {
    && (forall i :: 0 <= i < |ms| && ValidName(ms[i].path) ==> ps[i] in qs)
    && (forall q :: q in qs ==> exists i :: 0 <= i < |ms| && ps[i] == q && ValidName(ms[i].path))
  }

  lemma FiltersFront(ms: seq<Member>, ps: seq<Position>, rest: seq<Position>)
    requires |ps| == |ms| && ms != [] && Filters(ms[1..], ps[1..], rest)
    ensures Filters(ms, ps, if ValidName(ms[0].path) then [ps[0]] + rest else rest)
  {
    var qs := if ValidName(ms[0].path) then [ps[0]] + rest else rest;
    forall q | q in rest ensures exists i :: 0 <= i < |ms| && ps[i] == q && ValidName(ms[i].path) {
      var i :| 0 <= i < |ms| - 1 && ps[1..][i] == q && ValidName(ms[1..][i].path);
      assert ps[i + 1] == q && ms[i + 1] == ms[1..][i];
    }
    forall i | 0 <= i < |ms| && ValidName(ms[i].path) ensures ps[i] in qs {
      if i > 0 {
        assert ms[1..][i - 1] == ms[i] && ps[1..][i - 1] == ps[i];
      }
    }
  }

  lemma {:induction false} OnlyValidLists(ms: seq<Member>, prefix: string, node: Node, ps: seq<Position>) returns (qs: seq<Position>)
    requires Lists(ms, prefix, node, ps)
    ensures Lists(OnlyValid(ms), prefix, node, qs) && Filters(ms, ps, qs)
    decreases |ms|
  {
    if ms == [] {
      qs := [];
    } else {
      ListsTail(ms, prefix, node, ps);
      var rest := OnlyValidLists(ms[1..], prefix, node, ps[1..]);
      FiltersFront(ms, ps, rest);
      if ValidName(ms[0].path) {
        qs := [ps[0]] + rest;
        FrontFirst(ms, prefix, node, ps, rest);
      } else {
        qs := rest;
        assert [] + OnlyValid(ms[1..]) == OnlyValid(ms[1..]);
      }
    }
  }

  lemma FrontFirst(ms: seq<Member>, prefix: string, node: Node, ps: seq<Position>, rest: seq<Position>)
    requires Lists(ms, prefix, node, ps) && ms != [] && Filters(ms[1..], ps[1..], rest)
    requires Lists(OnlyValid(ms[1..]), prefix, node, rest)
    ensures Lists([ms[0]] + OnlyValid(ms[1..]), prefix, node, [ps[0]] + rest)
  {
    ListsTail(ms, prefix, node, ps);
    forall q | q in rest ensures Before(ps[0], q) {
      var i :| 0 <= i < |ms| - 1 && ps[1..][i] == q && ValidName(ms[1..][i].path);
      assert ps[i + 1] == q;
    }
    ListsConcat([ms[0]], OnlyValid(ms[1..]), prefix, node, [ps[0]], rest);
  }

  lemma ListsTail(ms: seq<Member>, prefix: string, node: Node, ps: seq<Position>)
    requires Lists(ms, prefix, node, ps) && ms != []
    ensures Lists(ms[1..], prefix, node, ps[1..]) && Lists([ms[0]], prefix, node, [ps[0]])
  {
    forall i | 0 <= i < |ms| - 1 ensures ms[1..][i] == ms[i + 1] && ps[1..][i] == ps[i + 1] {}
  }

  /** What a document lists: exactly the positions with a valid path, each with its node
      under that path, in preorder. */
  lemma ListedPositions(root: Node) returns (ps: seq<Position>)
    ensures Lists(OnlyValid(Walk("", root)), "", root, ps) && ExactlyValid(root, ps)
  {
    var all := WalkLists("", root);
    var ms := Walk("", root);
    ps := OnlyValidLists(ms, "", root, all);
    forall pos | NodeAt(root, pos).Some? && ValidName(PathAt(root, pos)) ensures pos in ps {
      var i :| 0 <= i < |all| && all[i] == pos;
      assert Names(ms[i], "", root, all[i]);
    }
    forall pos | pos in ps ensures NodeAt(root, pos).Some? && ValidName(PathAt(root, pos)) {
      var i :| 0 <= i < |ms| && all[i] == pos && ValidName(ms[i].path);
      assert Names(ms[i], "", root, all[i]);
    }
  }

  // ---------------------------------------------------------------- prefixes

  lemma {:induction false} PrefixKeys(root: Node, pos: Position, n: nat)
    requires NodeAt(root, pos).Some? && n <= |pos|
    ensures NodeAt(root, pos[..n]).Some? && |KeysAt(root, pos)| == |pos|
    ensures KeysAt(root, pos[..n]) == KeysAt(root, pos)[..n]
    decreases |pos|
  {
    if pos != [] {
      var child := root.entries[pos[0]].node;
      if n > 0 {
        assert pos[..n][1..] == pos[1..][..n - 1];
        PrefixKeys(child, pos[1..], n - 1);
      } else {
        PrefixKeys(child, pos[1..], 0);
      }
    }
  }

  lemma {:induction false} DotsPrefix(keys: seq<string>, n: nat)
    requires n <= |keys|
    ensures |Dots(keys[..n])| <= |Dots(keys)| && Dots(keys[..n]) == Dots(keys)[..|Dots(keys[..n])|]
  {
    if n > 0 {
      assert keys[..n][1..] == keys[1..][..n - 1];
      DotsPrefix(keys[1..], n - 1);
    }
  }

  lemma {:induction false} PathPrefix(keys: seq<string>, n: nat)
    requires n <= |keys|
    ensures |Path(keys[..n])| <= |Path(keys)| && Path(keys[..n]) == Path(keys)[..|Path(keys[..n])|]
  {
    if n > 0 {
      assert keys[..n][1..] == keys[1..][..n - 1] && keys[..n][0] == keys[0];
      if keys[0] == "" {
        PathPrefix(keys[1..], n - 1);
      } else {
        DotsPrefix(keys[1..], n - 1);
      }
    }
  }

  /** The path of a position is a valid name exactly when those of all nodes above it are:
      so cutting off below an invalid name leaves out nothing else. */
  lemma ValidAllTheWay(root: Node, pos: Position)
    requires NodeAt(root, pos).Some?
    ensures ValidName(PathAt(root, pos)) <==>
      forall n :: 0 <= n <= |pos| ==> NodeAt(root, pos[..n]).Some? && ValidName(PathAt(root, pos[..n]))
  {
    assert pos[..|pos|] == pos;
    forall n | 0 <= n <= |pos|
      ensures NodeAt(root, pos[..n]).Some? && (ValidName(PathAt(root, pos)) ==> ValidName(PathAt(root, pos[..n])))
    {
      PrefixKeys(root, pos, n);
      PathPrefix(KeysAt(root, pos), n);
    }
  }

  /** The characters of a valid name, by their ASCII codes: a to z, dot, underscore, digits. */
  lemma NameCharacters(c: char)
    ensures ValidChar(c) <==> 97 <= c as int <= 122 || c as int == 46 || c as int == 95 || 48 <= c as int <= 57
  {
  }
}
