/** What injectClash does to a whole document, on values, and what it leaves alone. */
module Injection {
  import opened Options
  import opened YamlTree
  import opened Proxies
  import opened Groups

  // ---------------------------------------------------------------- the document

  predicate HasRoot(doc: Tree) {
    doc.kids != [] && doc.kids[0].kind == Mapping
  }

  /** rootMapping: a document without a mapping at its root gets an empty one. */
  function Root(doc: Tree): Tree {
    if HasRoot(doc) then doc.kids[0] else MappingOf([])
  }

  function WithRoot(doc: Tree, root: Tree): Tree {
    var d := if doc.kind == Zero then doc.(kind := Document) else doc;
    d.(kids := if HasRoot(doc) then doc.kids[0 := root] else [root])
  }

  function Definitions(ccs: seq<Client>): seq<Tree> {
    seq(|ccs|, i requires 0 <= i < |ccs| => ProxyTree(ccs[i]))
  }

  function Names(ccs: seq<Client>): seq<string> {
    seq(|ccs|, i requires 0 <= i < |ccs| => ccs[i].remark)
  }

  function WithProxies(root: Tree, ccs: seq<Client>): Tree {
    WithPair(root, "proxies", SequenceOf(Definitions(ccs)))
  }

  // ---------------------------------------------------------------- when it succeeds

  predicate AllKnown(ccs: seq<Client>) {
    forall i :: 0 <= i < |ccs| ==> Known(ccs[i].protocol)
  }

  predicate GoodEntry(lib: Lib, entry: Tree) {
    entry.kind == Mapping ==> GoodGroup(lib, entry)
  }

  predicate GoodEntries(lib: Lib, entries: seq<Tree>) {
    forall i :: 0 <= i < |entries| ==> GoodEntry(lib, entries[i])
  }

  predicate GoodGroups(lib: Lib, groups: Option<Tree>) {
    groups.Some? && groups.value.kind == Sequence ==> GoodEntries(lib, groups.value.kids)
  }

  /** No provider chains dialers. */
  predicate GoodProviders(providers: Option<Tree>) {
    providers.Some? && providers.value.kind == Mapping ==>
      NoChains(providers.value.kids, WholePairs(providers.value.kids))
  }

  predicate NoChains(kids: seq<Tree>, n: nat)
    requires n <= |kids|
  {
    forall i :: 0 < i < n && i % 2 == 1 ==> Get(kids[i], "remnawave") == None
  }

  predicate InjectableRoot(lib: Lib, root: Tree) {
    GoodGroups(lib, Get(root, "proxy-groups")) && GoodProviders(Get(root, "proxy-providers"))
  }

  predicate Injectable(lib: Lib, doc: Tree, ccs: seq<Client>) {
    AllKnown(ccs) && InjectableRoot(lib, WithProxies(Root(doc), ccs))
  }

  // ---------------------------------------------------------------- the result

  ghost predicate EntryInjected(lib: Lib, before: Tree, names: seq<string>, after: Tree) {
    if before.kind == Mapping then GroupInjected(lib, before, names, after) else after == before
  }

  ghost predicate EntriesInjected(lib: Lib, before: seq<Tree>, names: seq<string>, after: seq<Tree>) {
    |after| == |before| && forall i :: 0 <= i < |before| ==> EntryInjected(lib, before[i], names, after[i])
  }

  ghost predicate GroupsReplaced(lib: Lib, root: Tree, names: seq<string>, after: Tree, entries: seq<Tree>) {
    && Get(root, "proxy-groups").Some?
    && var groups := Get(root, "proxy-groups").value;
       && EntriesInjected(lib, groups.kids, names, entries)
       && after == WithPair(root, "proxy-groups", groups.(kids := entries))
  }

  predicate HasGroups(root: Tree) {
    match Get(root, "proxy-groups") case Some(g) => g.kind == Sequence case None => false
  }

  ghost predicate RootInjected(lib: Lib, root: Tree, names: seq<string>, after: Tree) {
    if HasGroups(root) then exists entries :: GroupsReplaced(lib, root, names, after, entries) else after == root
  }

  ghost predicate Injected(lib: Lib, doc: Tree, ccs: seq<Client>, after: Tree) {
    exists root :: RootInjected(lib, WithProxies(Root(doc), ccs), Names(ccs), root) && after == WithRoot(doc, root)
  }

  lemma ProvidersUntouched(lib: Lib, root: Tree, names: seq<string>, after: Tree)
    requires RootInjected(lib, root, names, after)
    ensures Get(after, "proxy-providers") == Get(root, "proxy-providers")
  {
    if HasGroups(root) {
      var entries :| GroupsReplaced(lib, root, names, after, entries);
      var groups := Get(root, "proxy-groups").value;
      GetAfterReplace(root, "proxy-groups", groups.(kids := entries), "proxy-providers");
    }
  }

  // ---------------------------------------------------------------- what it leaves alone

  const REWRITTEN := {"proxies", "proxy-groups"}

  lemma ProxiesInPlace(root: Tree, ccs: seq<Client>)
    requires Paired(root)
    ensures var w := WithProxies(root, ccs);
      && Paired(w) && Others(w.kids, REWRITTEN) == Others(root.kids, REWRITTEN)
      && Get(w, "proxies") == Some(SequenceOf(Definitions(ccs)))
      && Get(w, "proxy-groups") == Get(root, "proxy-groups")
      && Get(w, "proxy-providers") == Get(root, "proxy-providers")
  {
    var list := SequenceOf(Definitions(ccs));
    WithPairKeepsOthers(root, "proxies", list, REWRITTEN);
    WithPairKeepsOthers(root, "proxies", list, {"proxies"});
    GetAfterSet(root, "proxies", list);
    SameOthersSameGet(WithProxies(root, ccs), root, "proxy-groups", {"proxies"});
    SameOthersSameGet(WithProxies(root, ccs), root, "proxy-providers", {"proxies"});
  }

  /** The groups are looked for after the proxies went in, which changes nothing: injection succeeds
      exactly when every protocol is known, every group's block and patterns make sense, and no provider
      chains dialers. */
  lemma InjectableIff(lib: Lib, doc: Tree, ccs: seq<Client>)
    requires Paired(Root(doc))
    ensures Injectable(lib, doc, ccs) <==> AllKnown(ccs) && InjectableRoot(lib, Root(doc))
  {
    ProxiesInPlace(Root(doc), ccs);
  }

  /** The same in the document's own keys: no "proxy-providers" entry has a "remnawave" block, and every mapping under
      "proxy-groups" is a good group. */
  lemma InjectableRootIff(lib: Lib, root: Tree)
    ensures InjectableRoot(lib, root) <==>
      && (forall providers, i ::
            Get(root, "proxy-providers") == Some(providers) && providers.kind == Mapping
              && 0 <= i < |providers.kids| && i % 2 == 1 ==>
              Get(providers.kids[i], "remnawave") == None)
      && (forall groups, i ::
            Get(root, "proxy-groups") == Some(groups) && groups.kind == Sequence
              && 0 <= i < |groups.kids| && groups.kids[i].kind == Mapping ==>
              GoodGroup(lib, groups.kids[i]))
  {
    var providers := Get(root, "proxy-providers");
    if providers.Some? {
      var kids := providers.value.kids;
      assert forall i :: 0 <= i < |kids| && i % 2 == 1 <==> 0 < i < WholePairs(kids) && i % 2 == 1;
    }
  }

  /** Which protocols are known. */
  lemma AllKnownIff(ccs: seq<Client>)
    ensures AllKnown(ccs) <==> forall i :: 0 <= i < |ccs| ==>
      ccs[i].protocol == "vless" || ccs[i].protocol == "vmess" || ccs[i].protocol == "trojan"
        || ccs[i].protocol == "shadowsocks"
  {
  }

  lemma WithRootTwice(doc: Tree, root: Tree)
    ensures var rooted := WithRoot(doc, Root(doc));
      rooted.kids != [] && rooted.(kids := rooted.kids[0 := root]) == WithRoot(doc, root)
  {
  }

  lemma RootOfWithRoot(doc: Tree, root: Tree)
    requires root.kind == Mapping
    ensures Root(WithRoot(doc, root)) == root
    ensures HasRoot(doc) ==> WithRoot(doc, root).kids[1..] == doc.kids[1..]
  {
  }

  /** The admin's document: every pair but the two rewritten ones stays as it was and where it was, the
      proxies are the clients' in order, and the groups keep their number, order and head. */
  lemma InjectionKeepsTheRest(lib: Lib, doc: Tree, ccs: seq<Client>, after: Tree)
    requires Paired(Root(doc)) && Injected(lib, doc, ccs, after)
    ensures Others(Root(after).kids, REWRITTEN) == Others(Root(doc).kids, REWRITTEN)
    ensures Root(after).(kids := []) == Root(doc).(kids := [])
    ensures Get(Root(after), "proxies") == Some(SequenceOf(Definitions(ccs)))
    ensures |Definitions(ccs)| == |ccs| && forall i :: 0 <= i < |ccs| ==> Definitions(ccs)[i] == ProxyTree(ccs[i])
    ensures after.(kids := []) == (if doc.kind == Zero then doc.(kind := Document) else doc).(kids := [])
    ensures GroupsKept(lib, Get(Root(doc), "proxy-groups"), Names(ccs), Get(Root(after), "proxy-groups"))
  {
    var w := WithProxies(Root(doc), ccs);
    ProxiesInPlace(Root(doc), ccs);
    var root :| RootInjected(lib, w, Names(ccs), root) && after == WithRoot(doc, root);
    if HasGroups(w) {
      var entries :| GroupsReplaced(lib, w, Names(ccs), root, entries);
      var groups := Get(w, "proxy-groups").value.(kids := entries);
      WithPairKeepsOthers(w, "proxy-groups", groups, REWRITTEN);
      WithPairKeepsOthers(w, "proxy-groups", groups, {"proxy-groups"});
      SameOthersSameGet(root, w, "proxies", {"proxy-groups"});
      GetAfterSet(w, "proxy-groups", groups);
    }
    RootOfWithRoot(doc, root);
  }

  /** A list of groups stays one; every mapping in it is injected, everything else in it stays. */
  ghost predicate GroupsKept(lib: Lib, before: Option<Tree>, names: seq<string>, after: Option<Tree>) {
    if before.Some? && before.value.kind == Sequence then
      && after.Some? && after.value.(kids := []) == before.value.(kids := [])
      && EntriesInjected(lib, before.value.kids, names, after.value.kids)
    else after == before
  }

  /** Every name a group gains is the name of a proxy in the document. */
  lemma AddedNamesAreProxies(lib: Lib, doc: Tree, ccs: seq<Client>, after: Tree, i: nat, name: string)
    returns (j: nat)
    requires AllKnown(ccs) && Paired(Root(doc)) && Injected(lib, doc, ccs, after)
    requires HasGroups(Root(doc))
    requires var before := Get(Root(doc), "proxy-groups").value.kids;
      i < |before| && Paired(before[i]) && !OptedOut(lib, before[i])
      && StrTree(name) !in Listed(before[i])
    requires var entries := Get(Root(after), "proxy-groups");
      entries.Some? && i < |entries.value.kids| && StrTree(name) in Listed(entries.value.kids[i])
    ensures Get(Root(after), "proxies").Some?
    ensures j < |Get(Root(after), "proxies").value.kids|
    ensures Get(Get(Root(after), "proxies").value.kids[j], "name") == Some(StrTree(name))
  {
    InjectionKeepsTheRest(lib, doc, ccs, after);
    var before := Get(Root(doc), "proxy-groups").value.kids[i];
    var entry := Get(Root(after), "proxy-groups").value.kids[i];
    assert EntryInjected(lib, before, Names(ccs), entry);
    var added := GroupGainsPassingNames(lib, before, Names(ccs), entry);
    InStrings(Listed(before), added, name);
    j :| 0 <= j < |ccs| && Names(ccs)[j] == name;
    FieldsAreTheProtocols(ccs[j], Name);
  }

  lemma InStrings(listed: seq<Tree>, added: seq<string>, name: string)
    requires StrTree(name) in listed + Strings(added) && StrTree(name) !in listed
    ensures name in added
  {
    var k :| 0 <= k < |listed + Strings(added)| && (listed + Strings(added))[k] == StrTree(name);
    assert |listed| <= k && Strings(added)[k - |listed|] == StrTree(name);
    assert added[k - |listed|] == name;
  }
}
