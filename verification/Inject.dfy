/**
 Injecting proxies into a parsed document (internal/generator/yamlgen/inject.go), on the heap.  Each
 method is proved against what Groups and Injection say about values.
 */
module Inject {
  import opened Options
  import opened YamlTree
  import opened Yaml
  import opened Proxies
  import opened Groups
  import opened Injection

  // ---------------------------------------------------------------- options, filters, choices

  method ParseRemnawaveGroupOpts(lib: Lib, node: Option<Node>, ghost s: Shape, ghost t: Option<Tree>)
    returns (r: Result<Choices, Error>)
    requires node.Some? <==> t.Some?
    requires node.Some? ==> Is(s, node.value) && t.value == Value(s)
    ensures r.Ok? <==> GoodBlock(lib, t)
    ensures r.Ok? ==> r.value == ChoicesOf(lib, t)
  {
    if node == None {
      return Ok(Choices(None, false, false));
    }
    assert node.value.kind == t.value.kind;
    if node.value.kind != Mapping {
      return Err(OptionsNotAMapping);
    }
    var tree := Read(node.value, s);
    r := ReadOptions(lib, tree.kids);
  }

  method ReadOptions(lib: Lib, kids: seq<Tree>) returns (r: Result<Choices, Error>)
    ensures r.Ok? <==> Decodable(lib, kids, WholePairs(kids))
    ensures r.Ok? ==> r.value == ChoicesUpTo(lib, kids, WholePairs(kids))
  {
    var populate: Option<bool>, random, shuffle := None, false, false;
    var i := 0;
    while i + 1 < |kids|
      invariant 0 <= i <= |kids| && i % 2 == 0
      invariant Decodable(lib, kids, i) && Choices(populate, random, shuffle) == ChoicesUpTo(lib, kids, i)
    {
      var b := lib.decode(kids[i + 1]);
      if b == None {
        return Err(BadOption(kids[i].value));
      }
      if kids[i].value == "include-proxies" {
        populate := b;
      } else if kids[i].value == "select-random-proxy" {
        random := b.value;
      } else if kids[i].value == "shuffle-proxies-order" {
        shuffle := b.value;
      }
      i := i + 2;
    }
    r := Ok(Choices(populate, random, shuffle));
  }

  method FilterNames(names: seq<string>, re: Regexp, keepMatching: bool) returns (out: seq<string>)
    ensures out == Keep(names, re, keepMatching)
  {
    out := [];
    for i := 0 to |names|
      invariant out == Keep(names[..i], re, keepMatching)
    {
      KeepSnoc(names[..i], names[i], re, keepMatching);
      assert names[..i + 1] == names[..i] + [names[i]];
      if re.matches(names[i]) == keepMatching {
        out := out + [names[i]];
      }
    }
    assert names[..|names|] == names;
  }

  method FilterByPattern(
    lib: Lib, node: Option<Node>, names: seq<string>, keepMatching: bool, ghost pattern: Option<Tree>)
    returns (r: Result<seq<string>, Error>)
    requires node.Some? <==> pattern.Some?
    requires node.Some? ==> node.value.value == pattern.value.value
    ensures r.Ok? <==> Compiles(lib, pattern)
    ensures r.Ok? ==> r.value == Filtered(lib, pattern, names, keepMatching)
  {
    if node == None {
      return Ok(names);
    }
    var re := lib.compile(node.value.value);
    if re == None {
      return Err(BadFilter(node.value.value));
    }
    var kept := FilterNames(names, re.value, keepMatching);
    r := Ok(kept);
  }

  /** rand.Shuffle: from the end, swap with any earlier one. */
  method Shuffle(a: array<string>)
    modifies a
    ensures multiset(a[..]) == multiset(old(a[..]))
  {
    var i := a.Length - 1;
    while 0 < i
      invariant multiset(a[..]) == multiset(old(a[..]))
      invariant i < a.Length
    {
      var j :| 0 <= j <= i;
      a[i], a[j] := a[j], a[i];
      i := i - 1;
    }
  }

  method Choose(choices: Choices, candidates: seq<string>) returns (added: seq<string>)
    ensures Chosen(choices, candidates, added)
  {
    if choices.random {
      if candidates == [] {
        return [];
      }
      var k :| 0 <= k < |candidates|;
      return [candidates[k]];
    }
    if choices.shuffle {
      var a := new string[|candidates|](i requires 0 <= i < |candidates| => candidates[i]);
      assert a[..] == candidates;
      Shuffle(a);
      return a[..];
    }
    added := candidates;
  }

  // ---------------------------------------------------------------- one group

  /** The tail of injectGroup: make sure there is a list, then append to it. */
  method Populate(group: Node, names: seq<string>, ghost s: Shape) returns (ghost s': Shape, ghost added: set<Node>)
    requires Is(s, group) && Value(s).kind == Mapping
    modifies Nodes(s)
    ensures Is(s', group) && Value(s') == Populated(old(Value(s)), names)
    ensures Nodes(s') <= Nodes(s) + added && fresh(added)
  {
    var list;
    ghost var i;
    assert allocated(Nodes(s));
    list, i := MapGet(group, "proxies", s);
    if list.Some? && list.value.kind == Sequence {
      s', added := AppendToKid(group, list.value, Strings(names), s, i);
      return;
    }
    s', added := NewList(group, names, s);
  }

  method NewList(group: Node, names: seq<string>, ghost s: Shape) returns (ghost s': Shape, ghost added: set<Node>)
    requires Is(s, group)
    modifies group`content
    ensures Is(s', group) && Value(s') == WithPair(old(Value(s)), "proxies", SequenceOf(Strings(names)))
    ensures Nodes(s') <= Nodes(s) + added && fresh(added)
  {
    ghost var t := Value(s);
    assert allocated(Nodes(s));
    var list;
    ghost var v, first, more, at;
    list, v := Build(SequenceOf([]));
    assert allocated(Nodes(v));
    s', first, at := MapSet(group, "proxies", list, s, v);
    SetThenReplace(t, "proxies", SequenceOf([]), SequenceOf(Strings(names)));
    assert allocated(Nodes(s'));
    s', more := AppendToKid(group, list, Strings(names), s', at);
    assert [] + Strings(names) == Strings(names);
    added := Nodes(v) + first + more;
  }

  /** The middle of injectGroup: filter, exclude-filter, and the choice. */
  method PickNames(lib: Lib, group: Node, choices: Choices, names: seq<string>, ghost s: Shape)
    returns (r: Result<seq<string>, Error>)
    requires Is(s, group)
    ensures Is(s, group) && Value(s) == old(Value(s))
    ensures r.Ok? <==> GoodPatterns(lib, old(Value(s)))
    ensures r.Ok? ==> Chosen(choices, Passing(lib, old(Value(s)), names), r.value)
  {
    ghost var t := Value(s);
    assert allocated(Nodes(s));
    var filter, exclude;
    ghost var i;
    filter, i := MapGet(group, "filter", s);
    r := FilterByPattern(lib, filter, names, true, Get(t, "filter"));
    if r.Err? {
      return;
    }
    exclude, i := MapGet(group, "exclude-filter", s);
    r := FilterByPattern(lib, exclude, r.value, false, Get(t, "exclude-filter"));
    if r.Err? {
      return;
    }
    TwoPassesArePassing(lib, t, names);
    var chosen := Choose(choices, r.value);
    r := Ok(chosen);
  }

  method InjectGroup(lib: Lib, group: Node, names: seq<string>, ghost s: Shape)
    returns (error: Option<Error>, ghost s': Shape, ghost added: set<Node>)
    requires Is(s, group) && Value(s).kind == Mapping
    modifies Nodes(s)
    ensures error == None <==> GoodGroup(lib, old(Value(s)))
    ensures error == None ==> Is(s', group) && GroupInjected(lib, old(Value(s)), names, Value(s'))
    ensures error == None ==> Nodes(s') <= Nodes(s) + added && fresh(added)
  {
    ghost var before := Value(s);
    assert allocated(Nodes(s));
    var block;
    ghost var rs;
    block, s', rs := MapDelete(group, "remnawave", s);
    added := {};
    assert Value(s') == Bare(before);
    assert allocated(Nodes(s')) && allocated(Nodes(rs));
    var choices := ParseRemnawaveGroupOpts(lib, block, rs, Block(before));
    if choices.Err? {
      return Some(choices.error), s', added;
    }
    if choices.value.populate == Some(false) {
      return None, s', added;
    }
    var picked := PickNames(lib, group, choices.value, names, s');
    if picked.Err? {
      return Some(picked.error), s', added;
    }
    s', added := Populate(group, picked.value, s');
    assert PopulatedWith(lib, before, names, Value(s'), picked.value);
    error := None;
  }

  // ---------------------------------------------------------------- all groups

  /** injectGroup on entry i of the list. */
  method InjectMapping(lib: Lib, groups: Node, names: seq<string>, i: nat, ghost s: Shape)
    returns (error: Option<Error>, ghost s': Shape, ghost k: Shape, ghost added: set<Node>)
    requires Is(s, groups) && i < |s.kids| == |groups.content| && Value(s.kids[i]).kind == Mapping
    modifies Nodes(s.kids[i])
    ensures error == None <==> GoodGroup(lib, old(Value(s.kids[i])))
    ensures error == None ==> GroupInjected(lib, old(Value(s.kids[i])), names, Value(k))
    ensures error == None ==> s' == Shape(groups, s.kids[i := k]) && Is(s', groups)
    ensures error == None ==> Value(s') == old(Value(s)).(kids := old(Value(s)).kids[i := Value(k)])
    ensures error == None ==> Nodes(s') <= Nodes(s) + added && fresh(added)
  {
    OpenAt(s, groups, i);
    ghost var t := Value(s);
    assert allocated(Nodes(s)) && allocated(Siblings(s.kids, i)) && allocated(Nodes(s.kids[i]));
    error, k, added := InjectGroup(lib, groups.content[i], names, s.kids[i]);
    s' := s;
    if error == None {
      s' := CloseAt(s, groups, i, t, k, added);
    }
  }

  /** What the first n groups became; t is the list as it was, v as it is. */
  ghost predicate Done(lib: Lib, v: Tree, t: Tree, names: seq<string>, n: nat) {
    && n <= |t.kids| == |v.kids| && v.(kids := []) == t.(kids := [])
    && (forall j :: 0 <= j < n ==> EntryInjected(lib, t.kids[j], names, v.kids[j]))
    && (forall j :: n <= j < |t.kids| ==> v.kids[j] == t.kids[j])
  }

  lemma DoneStep(lib: Lib, v: Tree, t: Tree, names: seq<string>, n: nat, x: Tree)
    requires Done(lib, v, t, names, n) && n < |t.kids| && EntryInjected(lib, t.kids[n], names, x)
    ensures Done(lib, v.(kids := v.kids[n := x]), t, names, n + 1)
  {
  }

  /** Where the loop over the groups stands: first is the shape it started from, t the value. */
  ghost predicate Progress(
    lib: Lib, groups: Node, first: Shape, t: Tree, names: seq<string>, i: nat, s: Shape, added: set<Node>)
    reads Nodes(s)
  {
    && Is(s, groups) && |s.kids| == |t.kids| == |first.kids| && Done(lib, Value(s), t, names, i)
    && (forall j :: 0 <= j < i ==> GoodEntry(lib, t.kids[j]))
    && (forall j :: i <= j < |s.kids| ==> s.kids[j] == first.kids[j])
    && Nodes(s) <= Nodes(first) + added
  }

  /** One turn of the loop over the groups. */
  method InjectEntry(
    lib: Lib, groups: Node, names: seq<string>, i: nat, ghost first: Shape, ghost t: Tree, ghost s: Shape,
    ghost added: set<Node>)
    returns (error: Option<Error>, ghost s': Shape, ghost more: set<Node>)
    requires i < |first.kids| && Progress(lib, groups, first, t, names, i, s, added)
    modifies Nodes(first.kids[i])
    ensures error == None <==> GoodEntry(lib, t.kids[i])
    ensures error == None ==> Progress(lib, groups, first, t, names, i + 1, s', added + more) && fresh(more)
  {
    Open(s, groups);
    OpenKid(groups.content, s.kids, i);
    error, s', more := None, s, {};
    if groups.content[i].kind == Mapping {
      ghost var k, v := s, Value(s);
      error, s', k, more := InjectMapping(lib, groups, names, i, s);
      if error == None {
        DoneStep(lib, v, t, names, i, Value(k));
      }
    } else {
      SkipEntry(lib, groups, first, t, names, i, s, added);
    }
  }

  /** What is not a mapping stays. */
  lemma SkipEntry(
    lib: Lib, groups: Node, first: Shape, t: Tree, names: seq<string>, i: nat, s: Shape, added: set<Node>)
    requires i < |first.kids| && Progress(lib, groups, first, t, names, i, s, added)
    requires Value(s).kids[i].kind != Mapping
    ensures GoodEntry(lib, t.kids[i]) && Progress(lib, groups, first, t, names, i + 1, s, added)
  {
    var v := Value(s);
    DoneStep(lib, v, t, names, i, v.kids[i]);
    assert v.(kids := v.kids[i := v.kids[i]]) == v;
  }

  lemma OpenList(groups: Node, s: Shape)
    requires Is(s, groups)
    ensures |groups.content| == |s.kids| == |Value(s).kids|
    ensures forall i :: 0 <= i < |s.kids| ==> Nodes(s.kids[i]) <= Nodes(s)
  {
    Open(s, groups);
    forall i: nat | i < |s.kids| ensures Nodes(s.kids[i]) <= Nodes(s) {
      KidNodes(s.kids, i);
    }
  }

  method InjectGroups(lib: Lib, groups: Node, names: seq<string>, ghost s: Shape)
    returns (error: Option<Error>, ghost s': Shape, ghost added: set<Node>)
    requires Is(s, groups)
    modifies Nodes(s)
    ensures error == None <==> GoodEntries(lib, old(Value(s)).kids)
    ensures error == None ==> Is(s', groups) && Done(lib, Value(s'), old(Value(s)), names, |old(Value(s)).kids|)
    ensures error == None ==> Nodes(s') <= Nodes(s) + added && fresh(added)
  {
    ghost var t := Value(s);
    OpenList(groups, s);
    s', added := s, {};
    for i := 0 to |groups.content|
      invariant |groups.content| == |s.kids| == |t.kids| && fresh(added)
      invariant Progress(lib, groups, s, t, names, i, s', added)
    {
      ghost var more;
      error, s', more := InjectEntry(lib, groups, names, i, s, t, s', added);
      if error.Some? {
        return;
      }
      OpenList(groups, s');
      added := added + more;
    }
    error := None;
  }

  // ---------------------------------------------------------------- the whole document

  /** p.Content = append(p.Content, node). */
  method AppendNode(p: Node, node: Node, ghost s: Shape, ghost k: Shape) returns (ghost s': Shape)
    requires Is(s, p) && Is(k, node) && Nodes(s) !! Nodes(k)
    modifies p`content
    ensures Is(s', p) && Nodes(s') == Nodes(s) + Nodes(k)
    ensures Value(s') == old(Value(s)).(kids := old(Value(s)).kids + [old(Value(k))])
  {
    OneKid(k);
    s' := AppendNodes(p, [node], s, [k]);
  }

  lemma DefinitionsSnoc(ccs: seq<Client>, i: nat)
    requires i < |ccs|
    ensures Definitions(ccs[..i + 1]) == Definitions(ccs[..i]) + [ProxyTree(ccs[i])]
  {
    forall k | 0 <= k < i ensures Definitions(ccs[..i])[k] == Definitions(ccs[..i + 1])[k] {
      assert ccs[..i][k] == ccs[..i + 1][k];
    }
  }

  lemma AllKnownSnoc(ccs: seq<Client>, i: nat)
    requires i < |ccs|
    ensures AllKnown(ccs[..i]) && Known(ccs[i].protocol) <==> AllKnown(ccs[..i + 1])
    ensures AllKnown(ccs) ==> Known(ccs[i].protocol)
  {
    assert AllKnown(ccs[..i + 1]) ==> Known(ccs[..i + 1][i].protocol);
    assert forall k :: 0 <= k < i ==> ccs[..i][k] == ccs[..i + 1][k];
  }

  /** One turn of the loop over the clients. */
  method AppendProxy(proxies: Node, cc: Client, ghost s: Shape)
    returns (known: bool, ghost s': Shape, ghost added: set<Node>)
    requires Is(s, proxies)
    modifies proxies`content
    ensures known <==> Known(cc.protocol)
    ensures known ==> Is(s', proxies) && Nodes(s') == Nodes(s) + added && fresh(added)
    ensures known ==> Value(s') == old(Value(s)).(kids := old(Value(s)).kids + [ProxyTree(cc)])
  {
    assert allocated(Nodes(s));
    var node;
    ghost var k;
    node, k := BuildProxyNode(cc);
    known, s', added := node.Some?, s, Nodes(k);
    if known {
      s' := AppendNode(proxies, node.value, s, k);
    }
  }

  /** One proxy a client, in order. */
  method BuildProxies(ccs: seq<Client>) returns (r: Result<Node, Error>, ghost v: Shape, ghost added: set<Node>)
    ensures r.Ok? <==> AllKnown(ccs)
    ensures r.Ok? ==> Is(v, r.value) && Nodes(v) <= added && fresh(added) && fresh(r.value)
    ensures r.Ok? ==> Value(v) == SequenceOf(Definitions(ccs))
  {
    var proxies;
    proxies, v := Build(SequenceOf([]));
    added := Nodes(v);
    for i := 0 to |ccs|
      invariant Is(v, proxies) && Value(v) == SequenceOf(Definitions(ccs[..i])) && AllKnown(ccs[..i])
      invariant Nodes(v) <= added && fresh(added)
    {
      var known;
      ghost var more;
      DefinitionsSnoc(ccs, i);
      AllKnownSnoc(ccs, i);
      known, v, more := AppendProxy(proxies, ccs[i], v);
      if !known {
        return Err(UnknownProtocol(ccs[i].remark, ccs[i].protocol)), v, added;
      }
      added := added + more;
    }
    assert ccs[..|ccs|] == ccs;
    r := Ok(proxies);
  }

  method CheckProviders(providers: seq<Tree>) returns (error: Option<Error>)
    ensures error == None <==> NoChains(providers, WholePairs(providers))
  {
    var i := 0;
    while i + 1 < |providers|
      invariant 0 <= i <= |providers| && i % 2 == 0 && NoChains(providers, i)
    {
      if Get(providers[i + 1], "remnawave").Some? {
        return Some(DialerChaining(providers[i].value));
      }
      i := i + 2;
    }
    error := None;
  }

  /** injectGroup on every mapping under "proxy-groups". */
  method InjectRootGroups(lib: Lib, root: Node, names: seq<string>, ghost s: Shape)
    returns (error: Option<Error>, ghost s': Shape, ghost added: set<Node>)
    requires Is(s, root) && Value(s).kind == Mapping
    modifies Nodes(s)
    ensures error == None <==> GoodGroups(lib, Get(old(Value(s)), "proxy-groups"))
    ensures error == None ==> Is(s', root) && RootInjected(lib, old(Value(s)), names, Value(s'))
    ensures error == None ==> Nodes(s') <= Nodes(s) + added && fresh(added)
  {
    assert allocated(Nodes(s));
    var groups;
    ghost var i;
    error, s', added := None, s, {};
    groups, i := MapGet(root, "proxy-groups", s);
    if groups.Some? && groups.value.kind == Sequence {
      error, s', added := InjectRootList(lib, root, groups.value, names, s, i);
    }
  }

  method InjectRootList(lib: Lib, root: Node, groups: Node, names: seq<string>, ghost s: Shape, ghost i: nat)
    returns (error: Option<Error>, ghost s': Shape, ghost added: set<Node>)
    requires Is(s, root) && Value(s).kind == Mapping && HasGroups(Value(s))
    requires 1 <= i < |s.kids| && FindKey(Value(s).kids, "proxy-groups") == Some(i - 1) && s.kids[i].node == groups
    modifies Nodes(s)
    ensures error == None <==> GoodGroups(lib, Get(old(Value(s)), "proxy-groups"))
    ensures error == None ==> Is(s', root) && RootInjected(lib, old(Value(s)), names, Value(s'))
    ensures error == None ==> Nodes(s') <= Nodes(s) + added && fresh(added)
  {
    OpenAt(s, root, i);
    ghost var t := Value(s);
    assert allocated(Nodes(s)) && allocated(Siblings(s.kids, i)) && allocated(Nodes(s.kids[i]));
    ghost var k;
    error, k, added := InjectGroups(lib, groups, names, s.kids[i]);
    s' := s;
    if error == None {
      s' := CloseAt(s, root, i, t, k, added);
      assert GroupsReplaced(lib, t, names, Value(s'), Value(k).kids);
    }
  }

  method CheckRootProviders(root: Node, ghost s: Shape) returns (error: Option<Error>)
    requires Is(s, root)
    ensures Is(s, root) && Value(s) == old(Value(s))
    ensures error == None <==> GoodProviders(Get(Value(s), "proxy-providers"))
  {
    assert allocated(Nodes(s));
    ghost var t := Value(s);
    var providers;
    ghost var i;
    providers, i := MapGet(root, "proxy-providers", s);
    if providers.Some? && providers.value.kind == Mapping {
      var tree := Read(providers.value, s.kids[i]);
      error := CheckProviders(tree.kids);
    } else {
      error := None;
    }
  }

  method InjectProxies(lib: Lib, root: Node, proxies: Node, names: seq<string>, ghost s: Shape, ghost v: Shape)
    returns (error: Option<Error>, ghost s': Shape, ghost added: set<Node>)
    requires Is(s, root) && Value(s).kind == Mapping && Is(v, proxies) && Nodes(s) !! Nodes(v)
    modifies Nodes(s), Nodes(v)
    ensures var w := WithPair(old(Value(s)), "proxies", old(Value(v)));
      && (error == None <==> InjectableRoot(lib, w))
      && (error == None ==> Is(s', root) && RootInjected(lib, w, names, Value(s')))
    ensures error == None ==> Nodes(s') <= Nodes(s) + Nodes(v) + added && fresh(added)
  {
    ghost var at, more;
    s', added, at := MapSet(root, "proxies", proxies, s, v);
    ghost var w := Value(s');
    error, s', more := InjectRootGroups(lib, root, names, s');
    if error.Some? {
      return;
    }
    added := added + more;
    ProvidersUntouched(lib, w, names, Value(s'));
    error := CheckRootProviders(root, s');
  }

  /** rootMapping. */
  method RootMapping(doc: Node, ghost s: Shape) returns (root: Node, ghost s': Shape, ghost added: set<Node>)
    requires Is(s, doc)
    modifies doc
    ensures Is(s', doc) && Value(s') == WithRoot(old(Value(s)), Root(old(Value(s))))
    ensures 0 < |s'.kids| && s'.kids[0].node == root && Value(s'.kids[0]) == Root(old(Value(s)))
    ensures Nodes(s') <= Nodes(s) + added && fresh(added)
  {
    Open(s, doc);
    assert allocated(Nodes(s)) && allocated(NodesOf(s.kids));
    s', added := s, {};
    if doc.kind == Zero {
      doc.kind := Document;
    }
    if |doc.content| == 0 || doc.content[0].kind != Mapping {
      root, s', added := NewRoot(doc, s);
    } else {
      root := doc.content[0];
    }
  }

  /** An empty mapping becomes the document's only kid. */
  method NewRoot(doc: Node, ghost s: Shape) returns (root: Node, ghost s': Shape, ghost added: set<Node>)
    requires Is(s, doc)
    modifies doc`content
    ensures Is(s', doc) && Nodes(s') == {doc} + added && fresh(added) && |s'.kids| == 1 && s'.kids[0].node == root
    ensures Value(s') == old(Value(s)).(kids := [MappingOf([])]) && Value(s'.kids[0]) == MappingOf([])
  {
    assert allocated(Nodes(s));
    ghost var k;
    root, k := Build(MappingOf([]));
    added := Nodes(k);
    OneKid(k);
    s' := SetContent(doc, [root], s, [k]);
  }

  /** injectClash below the document node. */
  method InjectRoot(lib: Lib, root: Node, ccs: seq<Client>, ghost s: Shape)
    returns (error: Option<Error>, ghost s': Shape, ghost added: set<Node>)
    requires Is(s, root) && Value(s).kind == Mapping
    modifies Nodes(s)
    ensures var w := WithProxies(old(Value(s)), ccs);
      && (error == None <==> AllKnown(ccs) && InjectableRoot(lib, w))
      && (error == None ==> Is(s', root) && RootInjected(lib, w, Names(ccs), Value(s')))
    ensures error == None ==> Nodes(s') <= Nodes(s) + added && fresh(added)
  {
    assert allocated(Nodes(s));
    var proxies;
    ghost var v, more;
    proxies, v, added := BuildProxies(ccs);
    if proxies.Err? {
      return Some(proxies.error), s, added;
    }
    error, s', more := InjectProxies(lib, root, proxies.value, Names(ccs), s, v);
    added := added + more;
  }

  method InjectDocument(lib: Lib, doc: Node, root: Node, ccs: seq<Client>, ghost s: Shape)
    returns (error: Option<Error>, ghost s': Shape, ghost after: Tree)
    requires Is(s, doc) && 0 < |s.kids| && s.kids[0].node == root && Value(s.kids[0]).kind == Mapping
    modifies Nodes(s.kids[0])
    ensures var w := WithProxies(old(Value(s.kids[0])), ccs);
      && (error == None <==> AllKnown(ccs) && InjectableRoot(lib, w))
      && (error == None ==> RootInjected(lib, w, Names(ccs), after))
    ensures error == None ==> Is(s', doc) && Value(s') == old(Value(s)).(kids := old(Value(s)).kids[0 := after])
  {
    OpenAt(s, doc, 0);
    ghost var t := Value(s);
    assert allocated(Nodes(s)) && allocated(Siblings(s.kids, 0)) && allocated(Nodes(s.kids[0]));
    ghost var k, added;
    error, k, added := InjectRoot(lib, root, ccs, s.kids[0]);
    s', after := s, Value(k);
    if error == None {
      s' := CloseAt(s, doc, 0, t, k, added);
    }
  }

  /** injectClash: it fails exactly when the clients, the groups or the providers call for it, and
      otherwise leaves the document Injection describes. */
  method InjectClash(lib: Lib, doc: Node, ccs: seq<Client>, ghost s: Shape)
    returns (error: Option<Error>, ghost s': Shape)
    requires Is(s, doc)
    modifies Nodes(s)
    ensures error == None <==> Injectable(lib, old(Value(s)), ccs)
    ensures error == None ==> Is(s', doc) && Injected(lib, old(Value(s)), ccs, Value(s'))
  {
    ghost var t := Value(s);
    var root;
    ghost var added, after;
    root, s', added := RootMapping(doc, s);
    KidNodes(s'.kids, 0);
    error, s', after := InjectDocument(lib, doc, root, ccs, s');
    WithRootTwice(t, after);
  }
}
