/** Configuration variables and their listeners (vity/config.h), and loading a document
    into the registered variables (vity/config.cc). */
module ConfigVars {
  import opened Wrappers
  import opened ConfigTree
  import opened ConfigPaths

  type ListenerId = nat

  /** One call of a listener. */
  datatype Call<T> = Call(id: ListenerId, before: T, after: T)

  /** A variable's value, its listeners in call order, the calls made so far, the value
      at which each listener was added, and the next listener id. */
  datatype Var<T> = Var(
    val: T, ids: seq<ListenerId>, calls: seq<Call<T>>, base: map<ListenerId, T>, nextId: ListenerId)

  function Calls<T>(ids: seq<ListenerId>, before: T, after: T): seq<Call<T>> {
    if ids == [] then [] else [Call(ids[0], before, after)] + Calls(ids[1..], before, after)
  }

  /** `setValue`: an equal value is not announced. */
  function SetTo<T(==)>(v: Var<T>, x: T): Var<T> {
    if x == v.val then v else v.(val := x, calls := v.calls + Calls(v.ids, v.val, x))
  }

  function Listen<T>(v: Var<T>): Var<T> {
    v.(ids := v.ids + [v.nextId], base := v.base[v.nextId := v.val], nextId := v.nextId + 1)
  }

  function Unlisten<T>(v: Var<T>, id: ListenerId): Var<T> {
    v.(ids := Without(v.ids, id))
  }

  function Without(ids: seq<ListenerId>, id: ListenerId): (r: seq<ListenerId>)
    ensures forall x :: x in r <==> x in ids && x != id
  {
    if ids == [] then []
    else if ids[0] == id then Without(ids[1..], id)
    else [ids[0]] + Without(ids[1..], id)
  }

  /** The calls that listener id received. */
  function To<T>(calls: seq<Call<T>>, id: ListenerId): seq<Call<T>> {
    if calls == [] then []
    else (if calls[0].id == id then [calls[0]] else []) + To(calls[1..], id)
  }

  /** The calls lead from value a to value b without a gap, each to a different value. */
  predicate Chain<T(==)>(a: T, calls: seq<Call<T>>, b: T) {
    if calls == [] then a == b
    else calls[0].before == a && calls[0].after != a && Chain(calls[0].after, calls[1..], b)
  }

  /** Listeners are called in the order of their keys. */
  predicate Ascending(ids: seq<ListenerId>) {
    forall i, j :: 0 <= i < j < |ids| ==> ids[i] < ids[j]
  }

  predicate InKeyOrder<T>(calls: seq<Call<T>>) {
    forall i, j :: 0 <= i < j < |calls| ==> calls[i].id < calls[j].id
  }

  /** Every listener has seen an unbroken chain of changes from the value it was added
      at to the present value. */
  ghost predicate Informed<T>(v: Var<T>) {
    && Ascending(v.ids)
    && (forall id :: id in v.ids ==> id < v.nextId && id in v.base && Chain(v.base[id], To(v.calls, id), v.val))
    && (forall c :: c in v.calls ==> c.id < v.nextId)
  }

  lemma {:induction false} ToConcat<T>(a: seq<Call<T>>, b: seq<Call<T>>, id: ListenerId)
    ensures To(a + b, id) == To(a, id) + To(b, id)
  {
    if a == [] {
      assert a + b == b;
    } else {
      assert (a + b)[1..] == a[1..] + b;
      ToConcat(a[1..], b, id);
      var first := if a[0].id == id then [a[0]] else [];
      assert first + (To(a[1..], id) + To(b, id)) == (first + To(a[1..], id)) + To(b, id);
    }
  }

  lemma {:induction false} ToCalls<T>(ids: seq<ListenerId>, before: T, after: T, id: ListenerId)
    requires Ascending(ids)
    ensures To(Calls(ids, before, after), id) == if id in ids then [Call(id, before, after)] else []
    ensures forall c :: c in Calls(ids, before, after) ==> c.id in ids
  {
    if ids != [] {
      var tail := Calls(ids[1..], before, after);
      assert ids == [ids[0]] + ids[1..];
      assert ([Call(ids[0], before, after)] + tail)[1..] == tail;
      ToCalls(ids[1..], before, after, id);
    }
  }

  lemma {:induction false} CallsAt<T>(ids: seq<ListenerId>, before: T, after: T)
    ensures |Calls(ids, before, after)| == |ids|
    ensures forall i :: 0 <= i < |ids| ==> Calls(ids, before, after)[i] == Call(ids[i], before, after)
  {
    if ids != [] {
      CallsAt(ids[1..], before, after);
    }
  }

  lemma {:induction false} ChainExtend<T>(a: T, calls: seq<Call<T>>, c: Call<T>)
    requires Chain(a, calls, c.before) && c.after != c.before
    ensures Chain(a, calls + [c], c.after)
  {
    if calls != [] {
      assert (calls + [c])[1..] == calls[1..] + [c];
      ChainExtend(calls[0].after, calls[1..], c);
    }
  }

  lemma {:induction false} ToNobody<T>(calls: seq<Call<T>>, id: ListenerId)
    requires forall c :: c in calls ==> c.id != id
    ensures To(calls, id) == []
  {
    if calls != [] {
      assert calls[0] in calls;
      ToNobody(calls[1..], id);
    }
  }

  /** Setting a value tells every listener once and keeps all of them informed. */
  lemma SetKeepsInformed<T>(v: Var<T>, x: T)
    requires Informed(v)
    ensures Informed(SetTo(v, x)) && SetTo(v, x).val == x
    ensures forall id :: id in v.ids && x != v.val ==> To(SetTo(v, x).calls, id) == To(v.calls, id) + [Call(id, v.val, x)]
  {
    if x != v.val {
      var told := Calls(v.ids, v.val, x);
      forall id | id in v.ids
        ensures To(v.calls + told, id) == To(v.calls, id) + [Call(id, v.val, x)]
        ensures Chain(v.base[id], To(v.calls + told, id), x)
      {
        ToConcat(v.calls, told, id);
        ToCalls(v.ids, v.val, x, id);
        ChainExtend(v.base[id], To(v.calls, id), Call(id, v.val, x));
      }
      ToCalls(v.ids, v.val, x, 0);
    }
  }

  lemma ListenKeepsInformed<T>(v: Var<T>)
    requires Informed(v)
    ensures Informed(Listen(v))
  {
    ToNobody(v.calls, v.nextId);
    assert forall i :: 0 <= i < |v.ids| ==> v.ids[i] in v.ids;
    forall id | id in Listen(v).ids ensures id == v.nextId || id in v.ids {}
  }

  lemma {:induction false} WithoutKeepsOrder(ids: seq<ListenerId>, id: ListenerId)
    requires Ascending(ids)
    ensures Ascending(Without(ids, id))
  {
    if ids != [] {
      WithoutKeepsOrder(ids[1..], id);
      assert forall k :: 0 <= k < |ids| - 1 ==> ids[1..][k] == ids[k + 1];
      assert forall x :: x in ids[1..] ==> ids[0] < x;
      var rest := Without(ids[1..], id);
      forall j | 0 <= j < |rest| ensures ids[0] < rest[j] {
        assert rest[j] in rest;
      }
    }
  }

  lemma UnlistenKeepsInformed<T>(v: Var<T>, id: ListenerId)
    requires Informed(v)
    ensures Informed(Unlisten(v, id))
  {
    WithoutKeepsOrder(v.ids, id);
  }

  /** A new listener hears the next change, once. */
  lemma AddedHears<T>(v: Var<T>, x: T)
    requires Informed(v) && x != v.val
    ensures To(SetTo(Listen(v), x).calls, v.nextId) == [Call(v.nextId, v.val, x)]
  {
    ListenKeepsInformed(v);
    SetKeepsInformed(Listen(v), x);
    ToNobody(v.calls, v.nextId);
  }

  /** A removed one hears nothing, and the others hear what they would have heard. */
  lemma RemovedHearsNothing<T>(v: Var<T>, id: ListenerId, other: ListenerId, x: T)
    requires Informed(v) && other != id
    ensures To(SetTo(Unlisten(v, id), x).calls, id) == To(v.calls, id)
    ensures To(SetTo(Unlisten(v, id), x).calls, other) == To(SetTo(v, x).calls, other)
  {
    if x != v.val {
      var left := Without(v.ids, id);
      WithoutKeepsOrder(v.ids, id);
      ToConcat(v.calls, Calls(left, v.val, x), id);
      ToCalls(left, v.val, x, id);
      ToConcat(v.calls, Calls(left, v.val, x), other);
      ToCalls(left, v.val, x, other);
      ToConcat(v.calls, Calls(v.ids, v.val, x), other);
      ToCalls(v.ids, v.val, x, other);
    }
  }

  // ---------------------------------------------------------------- loading

  /** Member m is offered to the variable registered as key and parses. */
  predicate Sets<T>(parse: string -> Option<T>, key: string, m: Member) {
    m.path != "" && Lower(m.path) == key && parse(Text(m.node)).Some?
  }

  /** Offering the members in order: a text that does not parse is passed over. */
  function Load<T(==)>(v: Var<T>, parse: string -> Option<T>, key: string, ms: seq<Member>): Var<T>
    decreases |ms|
  {
    if ms == [] then v
    else Load(if Sets(parse, key, ms[0]) then SetTo(v, parse(Text(ms[0].node)).value) else v, parse, key, ms[1..])
  }

  lemma LoadStep<T>(v: Var<T>, parse: string -> Option<T>, key: string, ms: seq<Member>, i: nat)
    requires i < |ms|
    ensures var v' := if Sets(parse, key, ms[i]) then SetTo(v, parse(Text(ms[i].node)).value) else v;
      Load(v, parse, key, ms[i..]) == Load(v', parse, key, ms[i + 1..])
  {
    assert ms[i..][0] == ms[i] && ms[i..][1..] == ms[i + 1..];
  }

  /** Member i is the last of ms that sets the variable. */
  predicate LastToSet<T>(parse: string -> Option<T>, key: string, ms: seq<Member>, i: int) {
    0 <= i < |ms| && Sets(parse, key, ms[i]) && forall j :: i < j < |ms| ==> !Sets(parse, key, ms[j])
  }

  /** A load leaves the last parsable value offered, or the variable as it was if there
      is none, and keeps every listener informed. */
  lemma {:induction false} LoadKeepsLast<T>(v: Var<T>, parse: string -> Option<T>, key: string, ms: seq<Member>)
    requires Informed(v)
    ensures var r := Load(v, parse, key, ms);
      && Informed(r) && r.ids == v.ids && r.base == v.base
      && (forall i :: LastToSet(parse, key, ms, i) ==> r.val == parse(Text(ms[i].node)).value)
      && ((forall i :: 0 <= i < |ms| ==> !Sets(parse, key, ms[i])) ==> r == v)
    decreases |ms|
  {
    if ms != [] {
      var rest := ms[1..];
      var hit := Sets(parse, key, ms[0]);
      var v' := if hit then SetTo(v, parse(Text(ms[0].node)).value) else v;
      if hit {
        SetKeepsInformed(v, parse(Text(ms[0].node)).value);
      }
      LoadKeepsLast(v', parse, key, rest);
      assert forall j :: 0 <= j < |rest| ==> rest[j] == ms[j + 1];
      forall i | LastToSet(parse, key, ms, i)
        ensures if i > 0 then LastToSet(parse, key, rest, i - 1) && rest[i - 1] == ms[i]
                else forall j :: 0 <= j < |rest| ==> !Sets(parse, key, rest[j])
      {
        assert i > 0 ==> rest[i - 1] == ms[i];
      }
    }
  }

  function LoadAll<T(==)>(v: Var<T>, parse: string -> Option<T>, key: string, docs: seq<seq<Member>>): Var<T>
    decreases |docs|
  {
    if docs == [] then v else LoadAll(Load(v, parse, key, docs[0]), parse, key, docs[1..])
  }

  /** The node at pos has the variable's name as its path, and its text parses. */
  predicate Offers<T>(root: Node, key: string, parse: string -> Option<T>, pos: Position) {
    && NodeAt(root, pos).Some? && key != "" && ValidName(key) && PathAt(root, pos) == key
    && parse(TextOf(NodeAt(root, pos).value)).Some?
  }

  /** No later node of that name parses. */
  ghost predicate Decides<T>(root: Node, key: string, parse: string -> Option<T>, pos: Position) {
    Offers(root, key, parse, pos) && forall q: Position :: Before(pos, q) ==> !Offers(root, key, parse, q)
  }

  lemma OffersIsSets<T>(root: Node, key: string, parse: string -> Option<T>, pos: Position, m: Member)
    requires Names(m, "", root, pos) && ValidName(m.path)
    ensures Offers(root, key, parse, pos) <==> Sets(parse, key, m)
  {
    LowerIsIdentity(m.path);
  }

  /** ps are the positions of the listed members ms, and hold every offer. */
  ghost predicate OffersListed<T>(root: Node, key: string, parse: string -> Option<T>, ms: seq<Member>, ps: seq<Position>) {
    && |ps| == |ms| && InOrder(ps)
    && (forall i :: 0 <= i < |ms| ==> (Offers(root, key, parse, ps[i]) <==> Sets(parse, key, ms[i])))
    && (forall i :: 0 <= i < |ms| && Offers(root, key, parse, ps[i]) ==> Text(ms[i].node) == TextOf(NodeAt(root, ps[i]).value))
    && (forall pos :: Offers(root, key, parse, pos) ==> pos in ps)
  }

  lemma ListOffers<T>(root: Node, key: string, parse: string -> Option<T>) returns (ps: seq<Position>)
    ensures OffersListed(root, key, parse, OnlyValid(Walk("", root)), ps)
  {
    ps := ListedPositions(root);
    var ms := OnlyValid(Walk("", root));
    forall i | 0 <= i < |ms|
      ensures Names(ms[i], "", root, ps[i]) && (Offers(root, key, parse, ps[i]) <==> Sets(parse, key, ms[i]))
    {
      assert ps[i] in ps;
      OffersIsSets(root, key, parse, ps[i], ms[i]);
    }
  }

  lemma DecidingIsLast<T>(root: Node, key: string, parse: string -> Option<T>, ms: seq<Member>, ps: seq<Position>, pos: Position)
    returns (i: nat)
    requires OffersListed(root, key, parse, ms, ps) && Decides(root, key, parse, pos)
    ensures LastToSet(parse, key, ms, i) && ps[i] == pos
  {
    i :| 0 <= i < |ps| && ps[i] == pos;
    forall j | i < j < |ms| ensures !Sets(parse, key, ms[j]) {
      assert Before(pos, ps[j]);
    }
  }

  /** What a load leaves in a variable, by the positions of the document: the last node of
      its name to parse decides, and without one the variable is as it was. */
  lemma LoadByPosition<T>(v: Var<T>, parse: string -> Option<T>, key: string, root: Node)
    requires Informed(v)
    ensures var r := Load(v, parse, key, OnlyValid(Walk("", root)));
      && (forall pos :: Decides(root, key, parse, pos) ==> r.val == parse(TextOf(NodeAt(root, pos).value)).value)
      && ((forall pos :: !Offers(root, key, parse, pos)) ==> r == v)
  {
    var ms := OnlyValid(Walk("", root));
    var ps := ListOffers(root, key, parse);
    LoadKeepsLast(v, parse, key, ms);
    forall pos | Decides(root, key, parse, pos)
      ensures Load(v, parse, key, ms).val == parse(TextOf(NodeAt(root, pos).value)).value
    {
      var i := DecidingIsLast(root, key, parse, ms, ps, pos);
    }
    if forall pos :: !Offers(root, key, parse, pos) {
      forall i | 0 <= i < |ms| ensures !Sets(parse, key, ms[i]) {
        assert !Offers(root, key, parse, ps[i]);
      }
    }
  }

  /** Over any sequence of loads every listener's calls still chain from the value it
      was added at to the present one. */
  lemma {:induction false} LoadsKeepInformed<T>(
    v: Var<T>, parse: string -> Option<T>, key: string, docs: seq<seq<Member>>)
    requires Informed(v)
    ensures var r := LoadAll(v, parse, key, docs);
      forall id :: id in v.ids ==> id in v.base && Chain(v.base[id], To(r.calls, id), r.val)
    decreases |docs|
  {
    if docs != [] {
      LoadKeepsLast(v, parse, key, docs[0]);
      LoadsKeepInformed(Load(v, parse, key, docs[0]), parse, key, docs[1..]);
    }
  }

  // ---------------------------------------------------------------- the objects

  class ConfigVar<T(==,!new)> {
    const parse: string -> Option<T>
    var m_val: T
    var m_cbs: seq<ListenerId>
    var calls: seq<Call<T>>
    var nextId: ListenerId
    ghost var base: map<ListenerId, T>

    ghost function View(): Var<T>
      reads this
    {
      Var(m_val, m_cbs, calls, base, nextId)
    }

    constructor (parse: string -> Option<T>, defaultVal: T)
      ensures this.parse == parse
      ensures View() == Var(defaultVal, [], [], map[], 0)
      ensures Informed(View())
    {
      this.parse, m_val, m_cbs, calls, nextId, base := parse, defaultVal, [], [], 0, map[];
    }

    /** The loop over the listeners. */
    method Notify(v: T)
      requires Ascending(m_cbs)
      modifies this`calls
      ensures calls == old(calls) + Calls(m_cbs, m_val, v)
      ensures InKeyOrder(calls[|old(calls)|..])
    {
      var k := 0;
      assert m_cbs[0..] == m_cbs;
      while k < |m_cbs|
        invariant 0 <= k <= |m_cbs|
        invariant calls + Calls(m_cbs[k..], m_val, v) == old(calls) + Calls(m_cbs, m_val, v)
      {
        assert m_cbs[k..][1..] == m_cbs[k + 1..];
        calls := calls + [Call(m_cbs[k], m_val, v)];
        k := k + 1;
      }
      CallsAt(m_cbs, m_val, v);
    }

    method SetValue(v: T)
      requires Informed(View())
      modifies this
      ensures Informed(View()) && View() == old(SetTo(View(), v))
    {
      SetKeepsInformed(View(), v);
      if v == m_val {
        return;
      }
      Notify(v);
      m_val := v;
    }

    /** `fromString`: an exception of the parser is swallowed; the result is false
        whether or not the value was set. */
    method FromString(text: string) returns (b: bool)
      requires Informed(View())
      modifies this
      ensures Informed(View()) && !b
      ensures View() == if parse(text).Some? then SetTo(old(View()), parse(text).value) else old(View())
    {
      var x := parse(text);
      if x.Some? {
        SetValue(x.value);
      }
      return false;
    }

    method AddListener() returns (id: ListenerId)
      requires Informed(View())
      modifies this
      ensures Informed(View()) && View() == old(Listen(View())) && id == old(nextId)
      ensures id !in old(m_cbs) && m_cbs == old(m_cbs) + [id] && m_val == old(m_val) && calls == old(calls)
    {
      ListenKeepsInformed(View());
      id := nextId;
      base := base[id := m_val];
      m_cbs := m_cbs + [id];
      nextId := nextId + 1;
    }

    method DelListener(key: ListenerId)
      requires Informed(View())
      modifies this
      ensures Informed(View()) && View() == old(Unlisten(View(), key))
      ensures (forall x :: x in m_cbs <==> x in old(m_cbs) && x != key) && m_val == old(m_val) && calls == old(calls)
    {
      UnlistenKeepsInformed(View(), key);
      m_cbs := Without(m_cbs, key);
    }
  }

  class Config<T(==,!new)> {
    var datas: map<string, ConfigVar<T>>

    ghost predicate Valid()
      reads this, datas.Values
    {
      && (forall k :: k in datas ==> ValidName(k) && Informed(datas[k].View()))
      && (forall k, l :: k in datas && l in datas && datas[k] == datas[l] ==> k == l)
    }

    /** `Lookup` with a default: the variable registered under the name, else a new one;
        None stands for the exception on an invalid name. */
    method Lookup(name: string, parse: string -> Option<T>, defaultVal: T) returns (r: Option<ConfigVar<T>>)
      requires Valid()
      modifies this
      ensures Valid()
      ensures r == if name in datas then Some(datas[name]) else None
      ensures r == None <==> !ValidName(name)
      ensures name in old(datas) || r == None ==> datas == old(datas)
      ensures name !in old(datas) && r.Some? ==>
        fresh(r.value) && datas == old(datas)[name := r.value] && r.value.View() == Var(defaultVal, [], [], map[], 0)
    {
      if name in datas {
        return Some(datas[name]);
      }
      if !ValidName(name) {
        return None;
      }
      var v := new ConfigVar(parse, defaultVal);
      datas := datas[name := v];
      return Some(v);
    }

    /** One round of the loading loop. */
    method OfferMember(m: Member)
      requires Valid()
      modifies datas.Values
      ensures Valid()
      ensures forall k :: k in datas ==>
        datas[k].View() == old(if Sets(datas[k].parse, k, m) then SetTo(datas[k].View(), datas[k].parse(Text(m.node)).value)
                               else datas[k].View())
    {
      if m.path != "" {
        var key := Lower(m.path);
        if key in datas {
          var _ := datas[key].FromString(Text(m.node));
        }
      }
    }

    /** What is left to load from the i-th member on leads to the same as loading all of
        ms would have led to before. */
    ghost predicate Underway(before: map<string, Var<T>>, ms: seq<Member>, i: nat)
      requires i <= |ms|
      reads this, datas.Values
    {
      forall k :: k in datas ==>
        k in before && Load(datas[k].View(), datas[k].parse, k, ms[i..]) == Load(before[k], datas[k].parse, k, ms)
    }

    method OfferNext(ghost before: map<string, Var<T>>, ms: seq<Member>, i: nat)
      requires Valid() && i < |ms| && Underway(before, ms, i)
      modifies datas.Values
      ensures Valid() && Underway(before, ms, i + 1)
    {
      forall k | k in datas { LoadStep(datas[k].View(), datas[k].parse, k, ms, i); }
      OfferMember(ms[i]);
    }

    /** The loading loop. */
    method LoadMembers(ms: seq<Member>)
      requires Valid()
      modifies datas.Values
      ensures Valid()
      ensures forall k :: k in datas ==>
        datas[k].View() == old(Load(datas[k].View(), datas[k].parse, k, ms))
    {
      var i := 0;
      assert ms[0..] == ms;
      ghost var before := map k | k in datas :: datas[k].View();
      while i < |ms|
        invariant 0 <= i <= |ms| && Valid() && Underway(before, ms, i)
      {
        OfferNext(before, ms, i);
        i := i + 1;
      }
    }

    /** Every registered variable takes the last parsable value the document offers under
        its name. */
    method LoadFromYaml(root: Node)
      requires Valid()
      modifies datas.Values
      ensures Valid()
      ensures forall k :: k in datas ==>
        datas[k].View() == old(Load(datas[k].View(), datas[k].parse, k, OnlyValid(Walk("", root))))
      ensures forall k, pos :: k in datas && Decides(root, k, datas[k].parse, pos) ==>
        datas[k].m_val == datas[k].parse(TextOf(NodeAt(root, pos).value)).value
      ensures forall k :: k in datas && (forall pos :: !Offers(root, k, datas[k].parse, pos)) ==>
        datas[k].View() == old(datas[k].View())
    {
      forall k | k in datas {
        LoadByPosition(datas[k].View(), datas[k].parse, k, root);
      }
      var all := new MemberList();
      ListAllMember("", root, all);
      assert all.items == OnlyValid(Walk("", root));
      assert forall k :: k in datas ==> datas[k].View() == old(datas[k].View());
      LoadMembers(all.items);
    }
  }
}
