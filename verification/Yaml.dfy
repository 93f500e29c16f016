/**
 YAML nodes on the heap and the mapping helpers of internal/generator/yamlgen/inject.go, which change
 them in place.

 A ghost `Shape` records which node sits where; `Value` reads off the document it stands for.  No node
 sits in two places of a shape (an alias keeps its target elsewhere).
 */
module Yaml {
  import opened Options
  import opened YamlTree

  class Node {
    var kind: Kind
    var tag: string
    var value: string
    var style: Style
    var content: seq<Node>

    constructor (kind: Kind, tag: string, value: string, style: Style, content: seq<Node>)
      ensures this.kind == kind && this.tag == tag && this.value == value && this.style == style
      ensures this.content == content
    {
      this.kind, this.tag, this.value, this.style, this.content := kind, tag, value, style, content;
    }
  }

  // ---------------------------------------------------------------- shapes

  datatype Shape = Shape(node: Node, kids: seq<Shape>)

  ghost function Nodes(s: Shape): set<Node> {
    {s.node} + NodesOf(s.kids)
  }

  ghost function NodesOf(kids: seq<Shape>): set<Node> {
    set i, n | 0 <= i < |kids| && n in Nodes(kids[i]) :: n
  }

  /** No node occurs twice. */
  ghost predicate Proper(s: Shape) {
    s.node !in NodesOf(s.kids) && ProperAll(s.kids)
  }

  ghost predicate ProperAll(kids: seq<Shape>) {
    && (forall i :: 0 <= i < |kids| ==> Proper(kids[i]))
    && (forall i, j :: 0 <= i < j < |kids| ==> Nodes(kids[i]) !! Nodes(kids[j]))
  }

  /** The nodes hold each other as the shapes say. */
  ghost predicate Live(s: Shape)
    reads Nodes(s)
    decreases s
  {
    LiveAll(s.node.content, s.kids)
  }

  ghost predicate LiveAll(content: seq<Node>, kids: seq<Shape>)
    reads NodesOf(kids)
    decreases kids
  {
    && |content| == |kids|
    && (forall i :: 0 <= i < |kids| ==> content[i] == kids[i].node && Live(kids[i]))
  }

  ghost function Value(s: Shape): Tree
    reads Nodes(s)
    decreases s
  {
    Tree(s.node.kind, s.node.tag, s.node.value, s.node.style, Values(s.kids))
  }

  ghost function Values(kids: seq<Shape>): (vs: seq<Tree>)
    reads NodesOf(kids)
    ensures |vs| == |kids| && forall i :: 0 <= i < |kids| ==> vs[i] == Value(kids[i])
    decreases kids
  {
    seq(|kids|, i requires 0 <= i < |kids| reads NodesOf(kids) => Value(kids[i]))
  }

  ghost predicate Is(s: Shape, n: Node)
    reads Nodes(s)
  {
    s.node == n && Proper(s) && Live(s)
  }

  /** One level of a shape. */
  lemma {:induction false} Open(s: Shape, n: Node)
    requires Is(s, n)
    ensures ProperAll(s.kids) && LiveAll(n.content, s.kids) && n !in NodesOf(s.kids)
    ensures Nodes(s) == {n} + NodesOf(s.kids)
    ensures |n.content| == |s.kids| && Value(s).kids == Values(s.kids)
  {
  }

  lemma {:induction false} Close(s: Shape)
    requires ProperAll(s.kids) && LiveAll(s.node.content, s.kids) && s.node !in NodesOf(s.kids)
    ensures Is(s, s.node) && Nodes(s) == {s.node} + NodesOf(s.kids)
  {
  }

  lemma {:induction false} OpenKid(content: seq<Node>, kids: seq<Shape>, i: nat)
    requires i < |kids| && ProperAll(kids) && LiveAll(content, kids)
    ensures |content| == |kids| && Is(kids[i], content[i]) && Nodes(kids[i]) <= NodesOf(kids)
    ensures content[i].value == Values(kids)[i].value && content[i].kind == Values(kids)[i].kind
  {
  }

  // What an edit of a content list does to shapes and values; none of these change the heap.

  /** Kid i replaced by a shape that shares no node with the kids. */
  lemma {:induction false} ReplaceKid(content: seq<Node>, kids: seq<Shape>, i: nat, k: Shape)
    requires i < |kids| && ProperAll(kids) && LiveAll(content, kids)
    requires Proper(k) && Live(k) && NodesOf(kids) !! Nodes(k)
    ensures ProperAll(kids[i := k]) && LiveAll(content[i := k.node], kids[i := k])
    ensures Nodes(k) <= NodesOf(kids[i := k]) <= NodesOf(kids) + Nodes(k)
    ensures Values(kids[i := k]) == Values(kids)[i := Value(k)]
  {
    forall j: nat | j < |kids| ensures Nodes(kids[j]) !! Nodes(k) {
      KidNodes(kids, j);
    }
    ReplacedIsProper(kids, i, k);
    KidNodes(kids[i := k], i);
  }

  lemma {:induction false} ReplacedIsProper(kids: seq<Shape>, i: nat, k: Shape)
    requires i < |kids| && ProperAll(kids) && Proper(k)
    requires forall j :: 0 <= j < |kids| && j != i ==> Nodes(kids[j]) !! Nodes(k)
    ensures ProperAll(kids[i := k]) && NodesOf(kids[i := k]) <= NodesOf(kids) + Nodes(k)
  {
  }

  lemma {:induction false} AppendKids(content: seq<Node>, kids: seq<Shape>, more: seq<Node>, moreKids: seq<Shape>)
    requires ProperAll(kids) && LiveAll(content, kids)
    requires ProperAll(moreKids) && LiveAll(more, moreKids) && NodesOf(kids) !! NodesOf(moreKids)
    ensures ProperAll(kids + moreKids) && LiveAll(content + more, kids + moreKids)
    ensures NodesOf(kids + moreKids) == NodesOf(kids) + NodesOf(moreKids)
    ensures Values(kids + moreKids) == Values(kids) + Values(moreKids)
  {
    var all := kids + moreKids;
    assert forall i :: 0 <= i < |kids| ==> all[i] == kids[i];
    assert forall i :: 0 <= i < |moreKids| ==> all[|kids| + i] == moreKids[i];
    AppendedNodes(kids, moreKids);
    forall i, j | 0 <= i < j < |all| ensures Nodes(all[i]) !! Nodes(all[j]) {
      if i < |kids| <= j {
        KidNodes(kids, i);
        KidNodes(moreKids, j - |kids|);
      }
    }
  }

  lemma {:induction false} KidNodes(kids: seq<Shape>, i: nat)
    requires i < |kids|
    ensures Nodes(kids[i]) <= NodesOf(kids)
  {
  }

  lemma {:induction false} AppendedNodes(kids: seq<Shape>, more: seq<Shape>)
    ensures NodesOf(kids + more) == NodesOf(kids) + NodesOf(more)
  {
    var all := kids + more;
    assert forall i :: 0 <= i < |kids| ==> all[i] == kids[i];
    assert forall i :: 0 <= i < |more| ==> all[|kids| + i] == more[i];
  }

  lemma {:induction false} OneKid(k: Shape)
    requires Proper(k) && Live(k)
    ensures ProperAll([k]) && LiveAll([k.node], [k]) && NodesOf([k]) == Nodes(k) && Values([k]) == [Value(k)]
  {
    assert [k][0] == k;
  }

  lemma {:induction false} DropPair(content: seq<Node>, kids: seq<Shape>, n: nat)
    requires n + 1 < |kids| && ProperAll(kids) && LiveAll(content, kids)
    ensures var rest := kids[..n] + kids[n + 2..];
      && ProperAll(rest) && LiveAll(content[..n] + content[n + 2..], rest) && NodesOf(rest) <= NodesOf(kids)
      && Values(rest) == Values(kids)[..n] + Values(kids)[n + 2..]
  {
    var rest := kids[..n] + kids[n + 2..];
    assert forall i :: 0 <= i < |rest| ==> rest[i] == kids[if i < n then i else i + 2];
  }

  // A change inside one kid: look away from it, change it, and look at the whole again.

  ghost function Siblings(kids: seq<Shape>, i: nat): set<Node> {
    set j, n | 0 <= j < |kids| && j != i && n in Nodes(kids[j]) :: n
  }

  /** Everything of s outside kid i is as in t. */
  ghost predicate AllBut(s: Shape, m: Node, i: nat, t: Tree)
    reads m, Siblings(s.kids, i)
  {
    && s.node == m && Proper(s) && i < |s.kids| == |m.content| == |t.kids|
    && m.kind == t.kind && m.tag == t.tag && m.value == t.value && m.style == t.style
    && m.content[i] == s.kids[i].node && (forall j :: 0 <= j < |s.kids| && j != i ==> KidIs(m, s.kids, j, t.kids[j]))
  }

  ghost predicate KidIs(m: Node, kids: seq<Shape>, j: nat, t: Tree)
    requires j < |kids|
    reads m, Nodes(kids[j])
  {
    j < |m.content| && m.content[j] == kids[j].node && Live(kids[j]) && Value(kids[j]) == t
  }

  lemma {:induction false} OpenAt(s: Shape, m: Node, i: nat)
    requires Is(s, m) && i < |s.kids|
    ensures AllBut(s, m, i, Value(s)) && Is(s.kids[i], m.content[i]) && Value(s).kids[i] == Value(s.kids[i])
    ensures Nodes(s.kids[i]) <= Nodes(s) && m !in Nodes(s.kids[i])
    ensures Siblings(s.kids, i) <= Nodes(s) && Siblings(s.kids, i) !! Nodes(s.kids[i])
  {
    Open(s, m);
    KidNodes(s.kids, i);
    forall j: nat | j < |s.kids| && j != i ensures KidIs(m, s.kids, j, Value(s).kids[j]) {
      OpenKid(m.content, s.kids, j);
    }
    SiblingsInside(s.kids, i);
  }

  lemma {:induction false} SiblingsInside(kids: seq<Shape>, i: nat)
    requires i < |kids| && ProperAll(kids)
    ensures Siblings(kids, i) <= NodesOf(kids) && Siblings(kids, i) !! Nodes(kids[i])
  {
    forall n | n in Siblings(kids, i) ensures n in NodesOf(kids) && n !in Nodes(kids[i]) {
      var j :| 0 <= j < |kids| && j != i && n in Nodes(kids[j]);
      KidNodes(kids, j);
    }
  }

  lemma {:induction false} StillApart(s: Shape, i: nat, k: Shape, added: set<Node>)
    requires Proper(s) && i < |s.kids| && Nodes(k) <= Nodes(s.kids[i]) + added && added !! Nodes(s)
    ensures ProperAll(s.kids) && s.node !in Nodes(k) && s.node !in NodesOf(s.kids)
    ensures forall j :: 0 <= j < |s.kids| && j != i ==> Nodes(s.kids[j]) !! Nodes(k)
    ensures Nodes(s) == {s.node} + NodesOf(s.kids) && Nodes(s.kids[i]) <= NodesOf(s.kids)
  {
    assert ProperAll(s.kids);
    KidNodes(s.kids, i);
    forall j: nat | j < |s.kids| && j != i ensures Nodes(s.kids[j]) !! Nodes(k) {
      KidNodes(s.kids, j);
      assert Nodes(s.kids[j]) !! Nodes(s.kids[i]);
    }
  }

  lemma {:induction false} ClosedKids(m: Node, kids: seq<Shape>, i: nat, ts: seq<Tree>, k: Shape)
    requires i < |kids| == |m.content| == |ts| && Live(k) && m.content[i] == k.node
    requires forall j :: 0 <= j < |kids| && j != i ==> KidIs(m, kids, j, ts[j])
    ensures LiveAll(m.content, kids[i := k]) && Values(kids[i := k]) == ts[i := Value(k)]
  {
    var after, vs := kids[i := k], ts[i := Value(k)];
    forall j: nat | j < |kids|
      ensures m.content[j] == after[j].node && Live(after[j]) && Value(after[j]) == vs[j]
    {
      assert j != i ==> KidIs(m, kids, j, ts[j]);
    }
  }

  /** The parent's shape and value once kid i is k. */
  lemma {:induction false} CloseAt(s: Shape, m: Node, i: nat, t: Tree, k: Shape, added: set<Node>) returns (s': Shape)
    requires AllBut(s, m, i, t) && Is(k, s.kids[i].node)
    requires Nodes(k) <= Nodes(s.kids[i]) + added && added !! Nodes(s)
    ensures s' == Shape(m, s.kids[i := k]) && Is(s', m) && Nodes(s') <= Nodes(s) + added
    ensures Value(s') == t.(kids := t.kids[i := Value(k)])
  {
    s' := Shape(m, s.kids[i := k]);
    StillApart(s, i, k, added);
    ReplacedIsProper(s.kids, i, k);
    ClosedKids(m, s.kids, i, t.kids, k);
    Close(s');
  }

  // ---------------------------------------------------------------- mappings

  ghost predicate SameValues(content: seq<Node>, ts: seq<Tree>)
    reads content
  {
    |content| == |ts| && forall i :: 0 <= i < |ts| ==> content[i].value == ts[i].value
  }

  lemma {:induction false} ContentValues(content: seq<Node>, kids: seq<Shape>)
    requires LiveAll(content, kids)
    ensures SameValues(content, Values(kids))
  {
  }

  /** The search loop all three helpers share. */
  method FindPair(content: seq<Node>, key: string, ghost kids: seq<Tree>) returns (i: int)
    requires SameValues(content, kids)
    ensures FindKey(kids, key) == if i < 0 then None else Some(i)
    ensures -1 <= i && (0 <= i ==> i + 1 < |content|)
  {
    i := 0;
    while i + 1 < |content|
      invariant 0 <= i <= |content| + 1 && i % 2 == 0
      invariant forall k :: 0 <= k < i ==> !KeyAt(kids, k, key)
    {
      if content[i].value == key {
        FindKeyIs(kids, key, i);
        return;
      }
      i := i + 2;
    }
    FindKeyNone(kids, key);
    i := -1;
  }

  method Find(m: Node, key: string, ghost s: Shape) returns (i: int)
    requires Is(s, m)
    ensures Is(s, m) && Value(s) == old(Value(s))
    ensures FindKey(Value(s).kids, key) == if i < 0 then None else Some(i)
    ensures -1 <= i && (0 <= i ==> i + 1 < |s.kids| == |m.content|)
  {
    Open(s, m);
    assert allocated(Nodes(s)) && allocated(NodesOf(s.kids));
    ContentValues(m.content, s.kids);
    i := FindPair(m.content, key, Values(s.kids));
  }

  method MapGet(m: Node, key: string, ghost s: Shape) returns (found: Option<Node>, ghost i: nat)
    requires Is(s, m)
    ensures Is(s, m) && Value(s) == old(Value(s))
    ensures found == None <==> Get(Value(s), key) == None
    ensures found.Some? ==>
      && 1 <= i < |s.kids| && s.kids[i].node == found.value && FindKey(Value(s).kids, key) == Some(i - 1)
      && Get(Value(s), key) == Some(Value(s.kids[i])) && Is(s.kids[i], found.value)
      && found.value in Nodes(s) && Nodes(s.kids[i]) <= Nodes(s)
      && found.value.kind == Value(s.kids[i]).kind && found.value.value == Value(s.kids[i]).value
  {
    if m.kind != Mapping {
      return None, 0;
    }
    var n := Find(m, key, s);
    if n < 0 {
      return None, 0;
    }
    i := n + 1;
    Open(s, m);
    OpenKid(m.content, s.kids, n + 1);
    found := Some(m.content[n + 1]);
  }

  method Key(s: string) returns (n: Node, ghost sh: Shape)
    ensures fresh(n) && sh == Shape(n, []) && Nodes(sh) == {n} && Is(sh, n) && Value(sh) == KeyTree(s)
  {
    n := new Node(Scalar, "!!str", s, Unstyled, []);
    sh := Shape(n, []);
  }

  /** m.Content = content. */
  method SetContent(m: Node, content: seq<Node>, ghost s: Shape, ghost kids: seq<Shape>) returns (ghost s': Shape)
    requires Is(s, m) && ProperAll(kids) && LiveAll(content, kids) && m !in NodesOf(kids)
    modifies m`content
    ensures s' == Shape(m, kids) && Is(s', m) && Nodes(s') == {m} + NodesOf(kids)
    ensures Value(s') == old(Value(s)).(kids := old(Values(kids)))
  {
    assert allocated(NodesOf(kids));
    m.content := content;
    s' := Shape(m, kids);
    Close(s');
  }

  method MapSet(m: Node, key: string, value: Node, ghost s: Shape, ghost v: Shape)
    returns (ghost s': Shape, ghost added: set<Node>, ghost at: nat)
    requires Is(s, m) && Is(v, value) && Nodes(s) !! Nodes(v)
    modifies m`content
    ensures Is(s', m) && Value(s') == WithPair(old(Value(s)), key, old(Value(v)))
    ensures at == SetAt(old(Value(s)).kids, key) < |s'.kids| && s'.kids[at] == v
    ensures Nodes(v) <= Nodes(s') <= Nodes(s) + Nodes(v) + added && fresh(added)
  {
    assert allocated(Nodes(v));
    var n := Find(m, key, s);
    if 0 <= n {
      added, at := {}, n + 1;
      s' := ReplaceValue(m, n + 1, value, s, v);
    } else {
      at := |s.kids| + 1;
      s', added := AppendPair(m, key, value, s, v);
    }
  }

  /** m.Content[i] = value. */
  method ReplaceValue(m: Node, i: nat, value: Node, ghost s: Shape, ghost v: Shape) returns (ghost s': Shape)
    requires Is(s, m) && Is(v, value) && Nodes(s) !! Nodes(v) && i < |s.kids|
    modifies m`content
    ensures Is(s', m) && Value(s') == old(Value(s)).(kids := old(Value(s)).kids[i := old(Value(v))])
    ensures s' == Shape(m, s.kids[i := v]) && Nodes(v) <= Nodes(s') <= Nodes(s) + Nodes(v)
  {
    Open(s, m);
    ReplaceKid(m.content, s.kids, i, v);
    s' := SetContent(m, m.content[i := value], s, s.kids[i := v]);
  }

  /** m.Content = append(m.Content, key(keyName), value). */
  method AppendPair(m: Node, key: string, value: Node, ghost s: Shape, ghost v: Shape)
    returns (ghost s': Shape, ghost added: set<Node>)
    requires Is(s, m) && Is(v, value) && Nodes(s) !! Nodes(v)
    modifies m`content
    ensures Is(s', m) && Value(s') == old(Value(s)).(kids := old(Value(s)).kids + [KeyTree(key), old(Value(v))])
    ensures |s'.kids| == |s.kids| + 2 && s'.kids[|s.kids| + 1] == v
    ensures Nodes(s') == Nodes(s) + Nodes(v) + added && fresh(added)
  {
    assert allocated(Nodes(s)) && allocated(Nodes(v));
    var k;
    ghost var ks;
    k, ks := Key(key);
    added := {k};
    s' := AppendTwo(m, k, value, s, ks, v);
  }

  method AppendTwo(m: Node, k: Node, value: Node, ghost s: Shape, ghost ks: Shape, ghost v: Shape)
    returns (ghost s': Shape)
    requires Is(s, m) && Is(ks, k) && Is(v, value)
    requires Nodes(s) !! Nodes(ks) && Nodes(s) !! Nodes(v) && Nodes(ks) !! Nodes(v)
    modifies m`content
    ensures Is(s', m) && s'.kids == s.kids + [ks, v] && Nodes(s') == Nodes(s) + Nodes(ks) + Nodes(v)
    ensures Value(s') == old(Value(s)).(kids := old(Value(s)).kids + [old(Value(ks)), old(Value(v))])
  {
    TwoKids(ks, v);
    s' := AppendNodes(m, [k, value], s, [ks, v]);
  }

  /** append(m.Content, nodes...). */
  method AppendNodes(m: Node, nodes: seq<Node>, ghost s: Shape, ghost ks: seq<Shape>) returns (ghost s': Shape)
    requires Is(s, m) && ProperAll(ks) && LiveAll(nodes, ks) && Nodes(s) !! NodesOf(ks)
    modifies m`content
    ensures Is(s', m) && s'.kids == s.kids + ks && Nodes(s') == Nodes(s) + NodesOf(ks)
    ensures Value(s') == old(Value(s)).(kids := old(Value(s)).kids + old(Values(ks)))
  {
    Open(s, m);
    assert allocated(Nodes(s)) && allocated(NodesOf(s.kids)) && allocated(NodesOf(ks));
    AppendKids(m.content, s.kids, nodes, ks);
    s' := SetContent(m, m.content + nodes, s, s.kids + ks);
  }

  lemma {:induction false} TwoKids(a: Shape, b: Shape)
    requires Proper(a) && Live(a) && Proper(b) && Live(b) && Nodes(a) !! Nodes(b)
    ensures ProperAll([a, b]) && LiveAll([a.node, b.node], [a, b]) && NodesOf([a, b]) == Nodes(a) + Nodes(b)
    ensures Values([a, b]) == [Value(a), Value(b)]
  {
    OneKid(a);
    OneKid(b);
    AppendKids([a.node], [a], [b.node], [b]);
    assert [a, b] == [a] + [b];
  }

  method MapDelete(m: Node, key: string, ghost s: Shape)
    returns (removed: Option<Node>, ghost s': Shape, ghost r: Shape)
    requires Is(s, m)
    modifies m`content
    ensures Is(s', m) && Value(s') == WithoutPair(old(Value(s)), key) && Nodes(s') <= Nodes(s)
    ensures removed == None <==> FindKey(old(Value(s)).kids, key) == None
    ensures removed.Some? ==>
      && Is(r, removed.value) && Nodes(r) <= Nodes(s)
      && FindKey(old(Value(s)).kids, key).Some?
      && Value(r) == old(Value(s)).kids[FindKey(old(Value(s)).kids, key).value + 1]
  {
    var n := Find(m, key, s);
    s', r := s, s;
    if n < 0 {
      return None, s', r;
    }
    var node;
    node, s', r := DeleteAt(m, n, s);
    removed := Some(node);
  }

  /** value := m.Content[n+1]; m.Content = append(m.Content[:n], m.Content[n+2:]...). */
  method DeleteAt(m: Node, n: nat, ghost s: Shape) returns (removed: Node, ghost s': Shape, ghost r: Shape)
    requires Is(s, m) && n + 1 < |s.kids| == |m.content|
    modifies m`content
    ensures Is(s', m) && Nodes(s') <= Nodes(s)
    ensures Value(s') == old(Value(s)).(kids := old(Value(s)).kids[..n] + old(Value(s)).kids[n + 2..])
    ensures Is(r, removed) && Nodes(r) <= Nodes(s) && Value(r) == old(Value(s)).kids[n + 1]
  {
    Open(s, m);
    OpenKid(m.content, s.kids, n + 1);
    assert allocated(Nodes(s)) && allocated(NodesOf(s.kids));
    removed, r := m.content[n + 1], s.kids[n + 1];
    DropPair(m.content, s.kids, n);
    s' := SetContent(m, m.content[..n] + m.content[n + 2..], s, s.kids[..n] + s.kids[n + 2..]);
  }

  // ---------------------------------------------------------------- new nodes

  /** Allocate a document fragment. */
  method Build(t: Tree) returns (n: Node, ghost s: Shape)
    ensures Is(s, n) && Value(s) == t && fresh(n) && fresh(Nodes(s))
    decreases t, 1
  {
    var kids;
    ghost var ks;
    kids, ks := BuildAll(t.kids);
    assert allocated(NodesOf(ks));
    n := new Node(t.kind, t.tag, t.value, t.style, kids);
    s := Shape(n, ks);
  }

  method BuildAll(ts: seq<Tree>) returns (nodes: seq<Node>, ghost ks: seq<Shape>)
    ensures ProperAll(ks) && LiveAll(nodes, ks) && Values(ks) == ts && fresh(NodesOf(ks))
    decreases ts, 0
  {
    if ts == [] {
      return [], [];
    }
    var n, rest;
    ghost var s, rs;
    n, s := Build(ts[0]);
    OneKid(s);
    assert allocated(NodesOf([s]));
    rest, rs := BuildAll(ts[1..]);
    AppendKids([n], [s], rest, rs);
    nodes, ks := [n] + rest, [s] + rs;
  }

  /** mapAppend, and append on a sequence's content: the new kids are built on the spot. */
  method AppendContent(m: Node, ts: seq<Tree>, ghost s: Shape) returns (ghost s': Shape)
    requires Is(s, m)
    modifies m`content
    ensures Is(s', m) && fresh(Nodes(s') - Nodes(s))
    ensures Value(s') == old(Value(s)).(kids := old(Value(s)).kids + ts)
  {
    assert allocated(Nodes(s));
    var nodes;
    ghost var ks;
    nodes, ks := BuildAll(ts);
    s' := AppendNodes(m, nodes, s, ks);
  }

  /** What a node holds. */
  method Read(n: Node, ghost s: Shape) returns (t: Tree)
    requires Is(s, n)
    ensures Is(s, n) && t == Value(s) == old(Value(s))
    decreases s
  {
    Open(s, n);
    assert allocated(Nodes(s)) && allocated(NodesOf(s.kids));
    var kids: seq<Tree> := [];
    for i := 0 to |n.content|
      invariant kids == Values(s.kids)[..i]
    {
      OpenKid(n.content, s.kids, i);
      var t := Read(n.content[i], s.kids[i]);
      assert Values(s.kids)[i] == t;
      kids := kids + [t];
    }
    t := Tree(n.kind, n.tag, n.value, n.style, kids);
  }

  /** p.Content = append(p.Content, ...), for a node p inside m. */
  method AppendToKid(m: Node, p: Node, ts: seq<Tree>, ghost s: Shape, ghost i: nat)
    returns (ghost s': Shape, ghost added: set<Node>)
    requires Is(s, m) && i < |s.kids| && s.kids[i].node == p
    modifies p`content
    ensures Is(s', m) && Nodes(s') <= Nodes(s) + added && fresh(added)
    ensures var kids := old(Value(s)).kids;
      Value(s') == old(Value(s)).(kids := kids[i := kids[i].(kids := kids[i].kids + ts)])
  {
    OpenAt(s, m, i);
    ghost var t := Value(s);
    assert allocated(Nodes(s)) && allocated(Siblings(s.kids, i)) && allocated(Nodes(s.kids[i]));
    ghost var k := AppendContent(p, ts, s.kids[i]);
    added := Nodes(k) - Nodes(s.kids[i]);
    s' := CloseAt(s, m, i, t, k, added);
  }
}
