/**
 What injection does to a document, on values: one group (injectGroup), all groups and the whole document
 (injectClash) of internal/generator/yamlgen/inject.go; and what it leaves alone.

 Regular expressions, the decoding of YAML booleans and the random choices are left open.
 */
module Groups {
  import opened Options
  import opened YamlTree
  import opened Proxies
  import opened Sequences

  datatype Regexp = Regexp(matches: string -> bool)

  /** The libraries: what a node decodes to as a boolean, and what a pattern compiles to. */
  datatype Lib = Lib(decode: Tree -> Option<bool>, compile: string -> Option<Regexp>)

  datatype Error =
    | UnknownProtocol(remark: string, protocol: string)
    | OptionsNotAMapping
    | BadOption(key: string)
    | BadFilter(pattern: string)
    | DialerChaining(provider: string)

  // ---------------------------------------------------------------- a group's options

  datatype Choices = Choices(populate: Option<bool>, random: bool, shuffle: bool)

  /** The value of the last pair with this key among the first n kids: a later pair wins. */
  function LastOption(lib: Lib, kids: seq<Tree>, n: nat, key: string): Option<bool>
    requires n <= |kids|
  {
    if n < 2 then None
    else if kids[n - 2].value == key then lib.decode(kids[n - 1])
    else LastOption(lib, kids, n - 2, key)
  }

  function WholePairs(kids: seq<Tree>): (n: nat)
    ensures n <= |kids| && n % 2 == 0
  {
    |kids| - |kids| % 2
  }

  function ChoicesUpTo(lib: Lib, kids: seq<Tree>, n: nat): Choices
    requires n <= |kids|
  {
    Choices(LastOption(lib, kids, n, "include-proxies"),
            LastOption(lib, kids, n, "select-random-proxy") == Some(true),
            LastOption(lib, kids, n, "shuffle-proxies-order") == Some(true))
  }

  function ChoicesOf(lib: Lib, block: Option<Tree>): Choices {
    match block
    case None => Choices(None, false, false)
    case Some(t) => ChoicesUpTo(lib, t.kids, WholePairs(t.kids))
  }

  /** The pair at i is the last with this key. */
  ghost predicate LastPair(kids: seq<Tree>, i: int, key: string) {
    KeyAt(kids, i, key) && forall k :: i < k ==> !KeyAt(kids, k, key)
  }

  lemma {:induction false} LastOptionIs(lib: Lib, kids: seq<Tree>, n: nat, key: string, b: bool)
    requires n <= |kids| && n % 2 == 0
    ensures LastOption(lib, kids, n, key) == Some(b) <==>
      exists i :: LastPair(kids[..n], i, key) && lib.decode(kids[i + 1]) == Some(b)
  {
    if n < 2 {
    } else if kids[n - 2].value == key {
      assert LastPair(kids[..n], n - 2, key);
      assert forall i :: LastPair(kids[..n], i, key) ==> i == n - 2;
    } else {
      LastOptionIs(lib, kids, n - 2, key, b);
      SameKeys(kids, n, key);
      SameLastPair(kids[..n], kids[..n - 2], key);
    }
  }

  lemma SameLastPair(a: seq<Tree>, b: seq<Tree>, key: string)
    requires forall k :: KeyAt(a, k, key) <==> KeyAt(b, k, key)
    ensures forall i :: LastPair(a, i, key) <==> LastPair(b, i, key)
  {
    forall i ensures LastPair(a, i, key) <==> LastPair(b, i, key) {
      if LastPair(a, i, key) {
        assert KeyAt(b, i, key);
        forall k | i < k ensures !KeyAt(b, k, key) {
          assert !KeyAt(a, k, key);
        }
      }
      if LastPair(b, i, key) {
        assert KeyAt(a, i, key);
        forall k | i < k ensures !KeyAt(a, k, key) {
          assert !KeyAt(b, k, key);
        }
      }
    }
  }

  lemma SameKeys(kids: seq<Tree>, n: nat, key: string)
    requires 2 <= n <= |kids| && n % 2 == 0 && kids[n - 2].value != key
    ensures forall k :: KeyAt(kids[..n], k, key) <==> KeyAt(kids[..n - 2], k, key)
  {
    forall k ensures KeyAt(kids[..n], k, key) <==> KeyAt(kids[..n - 2], k, key) {
      if 0 <= k < n - 2 {
        assert kids[..n][k] == kids[..n - 2][k];
      }
    }
  }

  /** Which option decides what: the last pair of each name, if it decodes to this. */
  lemma ChoicesAre(lib: Lib, block: Tree, b: bool)
    requires |block.kids| % 2 == 0
    ensures var c, kids := ChoicesOf(lib, Some(block)), block.kids;
      && (c.populate == Some(b) <==>
            exists i :: LastPair(kids, i, "include-proxies") && lib.decode(kids[i + 1]) == Some(b))
      && (c.random <==>
            exists i :: LastPair(kids, i, "select-random-proxy") && lib.decode(kids[i + 1]) == Some(true))
      && (c.shuffle <==>
            exists i :: LastPair(kids, i, "shuffle-proxies-order") && lib.decode(kids[i + 1]) == Some(true))
    ensures ChoicesOf(lib, None) == Choices(None, false, false)
  {
    var n := |block.kids|;
    assert block.kids[..n] == block.kids;
    LastOptionIs(lib, block.kids, n, "include-proxies", b);
    LastOptionIs(lib, block.kids, n, "select-random-proxy", true);
    LastOptionIs(lib, block.kids, n, "shuffle-proxies-order", true);
  }

  /** Every option must decode, known or not. */
  predicate Decodable(lib: Lib, kids: seq<Tree>, n: nat)
    requires n <= |kids|
  {
    forall i :: 0 < i < n && i % 2 == 1 ==> lib.decode(kids[i]).Some?
  }

  predicate GoodBlock(lib: Lib, block: Option<Tree>) {
    block.Some? ==> block.value.kind == Mapping && Decodable(lib, block.value.kids, WholePairs(block.value.kids))
  }

  // ---------------------------------------------------------------- which names a group gets

  predicate Compiles(lib: Lib, pattern: Option<Tree>) {
    pattern.Some? ==> lib.compile(pattern.value.value).Some?
  }

  predicate Matches(lib: Lib, pattern: Tree, name: string)
    requires Compiles(lib, Some(pattern))
  {
    lib.compile(pattern.value).value.matches(name)
  }

  /** The name matches the group's filter, if it has one, and not its exclude-filter. */
  predicate Passes(lib: Lib, group: Tree, name: string)
    requires Compiles(lib, Get(group, "filter")) && Compiles(lib, Get(group, "exclude-filter"))
  {
    && (Get(group, "filter").Some? ==> Matches(lib, Get(group, "filter").value, name))
    && (Get(group, "exclude-filter").Some? ==> !Matches(lib, Get(group, "exclude-filter").value, name))
  }

  function Passing(lib: Lib, group: Tree, names: seq<string>): (out: seq<string>)
    requires Compiles(lib, Get(group, "filter")) && Compiles(lib, Get(group, "exclude-filter"))
    ensures forall x :: x in out <==> x in names && Passes(lib, group, x)
  {
    if names == [] then []
    else (if Passes(lib, group, names[0]) then [names[0]] else []) + Passing(lib, group, names[1..])
  }

  /** Name by name, in the order they come in. */
  lemma {:induction false} PassingIs(lib: Lib, group: Tree, a: seq<string>, name: string, b: seq<string>)
    requires Compiles(lib, Get(group, "filter")) && Compiles(lib, Get(group, "exclude-filter"))
    ensures Passing(lib, group, [name]) == if Passes(lib, group, name) then [name] else []
    ensures Passing(lib, group, a + b) == Passing(lib, group, a) + Passing(lib, group, b)
  {
    assert [name][1..] == [];
    if a == [] {
      assert a + b == b;
    } else {
      assert (a + b)[0] == a[0] && (a + b)[1..] == a[1..] + b;
      PassingIs(lib, group, a[1..], name, b);
      var first := if Passes(lib, group, a[0]) then [a[0]] else [];
      Regroup(first, Passing(lib, group, a[1..]), Passing(lib, group, b));
    }
  }

  /** filterNames. */
  function Keep(names: seq<string>, re: Regexp, keepMatching: bool): (out: seq<string>)
    ensures forall x :: x in out <==> x in names && re.matches(x) == keepMatching
  {
    if names == [] then []
    else (if re.matches(names[0]) == keepMatching then [names[0]] else []) + Keep(names[1..], re, keepMatching)
  }

  lemma {:induction false} KeepSnoc(names: seq<string>, x: string, re: Regexp, keepMatching: bool)
    ensures Keep(names + [x], re, keepMatching) ==
      Keep(names, re, keepMatching) + if re.matches(x) == keepMatching then [x] else []
  {
    if names == [] {
      assert names + [x] == [x] && [x][1..] == [];
    } else {
      assert (names + [x])[1..] == names[1..] + [x];
      KeepSnoc(names[1..], x, re, keepMatching);
    }
  }

  function Filtered(lib: Lib, pattern: Option<Tree>, names: seq<string>, keepMatching: bool): seq<string>
    requires Compiles(lib, pattern)
  {
    match pattern
    case None => names
    case Some(p) => Keep(names, lib.compile(p.value).value, keepMatching)
  }

  lemma {:induction false} FilteredNil(lib: Lib, pattern: Option<Tree>, keepMatching: bool)
    requires Compiles(lib, pattern)
    ensures Filtered(lib, pattern, [], keepMatching) == []
  {
  }

  lemma FilteredCons(lib: Lib, pattern: Option<Tree>, x: string, rest: seq<string>, keepMatching: bool)
    requires Compiles(lib, pattern)
    ensures Filtered(lib, pattern, [x] + rest, keepMatching) ==
      (if pattern == None || Matches(lib, pattern.value, x) == keepMatching then [x] else [])
      + Filtered(lib, pattern, rest, keepMatching)
  {
    assert ([x] + rest)[1..] == rest;
  }

  /** The two passes leave what both patterns let through, in order. */
  lemma {:induction false} TwoPassesArePassing(lib: Lib, group: Tree, names: seq<string>)
    requires Compiles(lib, Get(group, "filter")) && Compiles(lib, Get(group, "exclude-filter"))
    ensures Filtered(lib, Get(group, "exclude-filter"), Filtered(lib, Get(group, "filter"), names, true), false)
      == Passing(lib, group, names)
  {
    var f, x := Get(group, "filter"), Get(group, "exclude-filter");
    if names == [] {
      FilteredNil(lib, f, true);
      FilteredNil(lib, x, false);
    } else {
      var rest := names[1..];
      assert names == [names[0]] + rest;
      TwoPassesArePassing(lib, group, rest);
      FilteredCons(lib, f, names[0], rest, true);
      FilteredCons(lib, x, names[0], Filtered(lib, f, rest, true), false);
      var once := Filtered(lib, f, rest, true);
      assert Filtered(lib, f, names, true) == [names[0]] + once || Filtered(lib, f, names, true) == [] + once == once;
      assert [] + Passing(lib, group, rest) == Passing(lib, group, rest);
    }
  }

  /** One of the candidates, a permutation of them, or all of them in order. */
  ghost predicate Chosen(choices: Choices, candidates: seq<string>, added: seq<string>) {
    if choices.random then
      (candidates == [] && added == []) || (|added| == 1 && added[0] in candidates)
    else if choices.shuffle then multiset(added) == multiset(candidates)
    else added == candidates
  }

  // ---------------------------------------------------------------- one group

  function Strings(names: seq<string>): seq<Tree> {
    seq(|names|, i requires 0 <= i < |names| => StrTree(names[i]))
  }

  /** The names go behind what the list holds; anything but a list is replaced by one. */
  function Populated(group: Tree, added: seq<string>): Tree {
    match Get(group, "proxies")
    case Some(p) =>
      if p.kind == Sequence then WithPair(group, "proxies", p.(kids := p.kids + Strings(added)))
      else WithPair(group, "proxies", SequenceOf(Strings(added)))
    case None => WithPair(group, "proxies", SequenceOf(Strings(added)))
  }

  function Bare(group: Tree): Tree {
    WithoutPair(group, "remnawave")
  }

  function Block(group: Tree): Option<Tree> {
    Get(group, "remnawave")
  }

  predicate OptedOut(lib: Lib, group: Tree) {
    ChoicesOf(lib, Block(group)).populate == Some(false)
  }

  /** When injectGroup succeeds. */
  predicate GoodGroup(lib: Lib, group: Tree) {
    && GoodBlock(lib, Block(group))
    && (!OptedOut(lib, group) ==> GoodPatterns(lib, Bare(group)))
  }

  predicate GoodPatterns(lib: Lib, group: Tree) {
    Compiles(lib, Get(group, "filter")) && Compiles(lib, Get(group, "exclude-filter"))
  }

  /** What a group must be like, in its own keys: a "remnawave" block is a mapping whose every value decodes as a
      boolean; and unless it opts out, "filter" and "exclude-filter" compile, as they stand without that block. */
  lemma GoodGroupIff(lib: Lib, group: Tree)
    ensures GoodGroup(lib, group) <==>
      && (Get(group, "remnawave").Some? ==> var block := Get(group, "remnawave").value;
            && block.kind == Mapping
            && forall i :: 0 <= i < |block.kids| && i % 2 == 1 ==> lib.decode(block.kids[i]).Some?)
      && (ChoicesOf(lib, Get(group, "remnawave")).populate != Some(false) ==>
            var bare := WithoutPair(group, "remnawave");
            && (Get(bare, "filter").Some? ==> lib.compile(Get(bare, "filter").value.value).Some?)
            && (Get(bare, "exclude-filter").Some? ==> lib.compile(Get(bare, "exclude-filter").value.value).Some?))
  {
    if Get(group, "remnawave").Some? {
      var kids := Get(group, "remnawave").value.kids;
      assert forall i :: 0 <= i < |kids| && i % 2 == 1 <==> 0 < i < WholePairs(kids) && i % 2 == 1;
    }
  }

  ghost predicate PopulatedWith(lib: Lib, before: Tree, names: seq<string>, after: Tree, added: seq<string>)
    requires GoodPatterns(lib, Bare(before))
  {
    && Chosen(ChoicesOf(lib, Block(before)), Passing(lib, Bare(before), names), added)
    && after == Populated(Bare(before), added)
  }

  ghost predicate GroupInjected(lib: Lib, before: Tree, names: seq<string>, after: Tree) {
    && GoodGroup(lib, before)
    && if OptedOut(lib, before) then after == Bare(before)
       else exists added :: PopulatedWith(lib, before, names, after, added)
  }

  /** The entries the admin listed by hand. */
  function Listed(group: Tree): seq<Tree> {
    match Get(group, "proxies") case Some(p) => (if p.kind == Sequence then p.kids else []) case None => []
  }

  const TOUCHED := {"remnawave", "proxies"}

  lemma BareGets(group: Tree, key: string)
    requires Paired(group) && key != "remnawave"
    ensures Paired(Bare(group)) && Get(Bare(group), key) == Get(group, key)
  {
    WithoutPairKeepsOthers(group, "remnawave", {"remnawave"});
    SameOthersSameGet(Bare(group), group, key, {"remnawave"});
  }

  /** Whatever the options say: every other pair of the group stays as it was and where it was, its
      tag and style as well, and the options are gone exactly when they were not there twice. */
  lemma GroupKeepsTheRest(lib: Lib, before: Tree, names: seq<string>, after: Tree)
    requires Paired(before) && GroupInjected(lib, before, names, after)
    ensures Paired(after) && after.(kids := []) == before.(kids := [])
    ensures Others(after.kids, TOUCHED) == Others(before.kids, TOUCHED)
    ensures Get(after, "remnawave") == None <==> Occurrences(before.kids, "remnawave") <= 1
  {
    WithoutPairKeepsOthers(before, "remnawave", TOUCHED);
    DeletedIffUnique(before, "remnawave");
    if !OptedOut(lib, before) {
      var added :| PopulatedWith(lib, before, names, after, added);
      PopulatedKeepsTheRest(Bare(before), added);
    }
  }

  lemma PopulatedKeepsTheRest(group: Tree, added: seq<string>)
    requires Paired(group)
    ensures var after := Populated(group, added);
      && Paired(after) && after.(kids := []) == group.(kids := [])
      && Others(after.kids, TOUCHED) == Others(group.kids, TOUCHED)
      && Get(after, "remnawave") == Get(group, "remnawave")
      && Get(after, "proxies").Some? && Get(after, "proxies").value.kind == Sequence
      && Get(after, "proxies").value.kids == Listed(group) + Strings(added)
  {
    var after := Populated(group, added);
    var list := match Get(group, "proxies")
      case Some(p) => (if p.kind == Sequence then p.(kids := p.kids + Strings(added)) else SequenceOf(Strings(added)))
      case None => SequenceOf(Strings(added));
    assert after == WithPair(group, "proxies", list);
    WithPairKeepsOthers(group, "proxies", list, TOUCHED);
    WithPairKeepsOthers(group, "proxies", list, {"proxies"});
    SameOthersSameGet(after, group, "remnawave", {"proxies"});
    GetAfterSet(group, "proxies", list);
    assert [] + Strings(added) == Strings(added);
  }

  /** What a group that takes part gains: its own list stays in front, the names behind it pass its
      filters, and they are all of those in order, a permutation of them, or one of them. */
  lemma GroupGainsPassingNames(lib: Lib, before: Tree, names: seq<string>, after: Tree) returns (added: seq<string>)
    requires Paired(before) && GroupInjected(lib, before, names, after) && !OptedOut(lib, before)
    ensures GoodPatterns(lib, before)
    ensures Get(after, "proxies").Some? && Get(after, "proxies").value.kind == Sequence
    ensures Get(after, "proxies").value.kids == Listed(before) + Strings(added)
    ensures Chosen(ChoicesOf(lib, Block(before)), Passing(lib, before, names), added)
    ensures var c, passing := ChoicesOf(lib, Get(before, "remnawave")), Passing(lib, before, names);
      && (c.random ==> |added| == (if passing == [] then 0 else 1))
      && (!c.random && c.shuffle ==> multiset(added) == multiset(passing))
      && (!c.random && !c.shuffle ==> added == passing)
    ensures forall x :: x in added ==> x in names && Passes(lib, before, x)
    ensures forall k :: 0 <= k < |added| ==>
      Strings(added)[k] == Tree(Scalar, "!!str", added[k], DoubleQuoted, [])
  {
    added :| PopulatedWith(lib, before, names, after, added);
    BareGets(before, "filter");
    BareGets(before, "exclude-filter");
    BareGets(before, "proxies");
    PopulatedKeepsTheRest(Bare(before), added);
    SamePatternsSamePassing(lib, Bare(before), before, names);
    ChosenAreCandidates(ChoicesOf(lib, Block(before)), Passing(lib, before, names), added);
  }

  lemma ChosenAreCandidates(choices: Choices, candidates: seq<string>, added: seq<string>)
    requires Chosen(choices, candidates, added)
    ensures forall x :: x in added ==> x in candidates
  {
    forall x | x in added ensures x in candidates {
      assert multiset(added) == multiset(candidates) ==> x in multiset(candidates);
    }
  }

  lemma {:induction false} SamePatternsSamePassing(lib: Lib, a: Tree, b: Tree, names: seq<string>)
    requires Get(a, "filter") == Get(b, "filter") && Get(a, "exclude-filter") == Get(b, "exclude-filter")
    requires GoodPatterns(lib, a)
    ensures Passing(lib, a, names) == Passing(lib, b, names)
  {
    if names == [] {
    } else {
      SamePatternsSamePassing(lib, a, b, names[1..]);
    }
  }

  /** A group that opted out keeps its list, and anything else it has. */
  lemma OptedOutKeepsItsList(lib: Lib, before: Tree, names: seq<string>, after: Tree)
    requires Paired(before) && GroupInjected(lib, before, names, after) && OptedOut(lib, before)
    ensures Get(after, "proxies") == Get(before, "proxies")
    ensures Others(after.kids, {"remnawave"}) == Others(before.kids, {"remnawave"})
  {
    BareGets(before, "proxies");
    WithoutPairKeepsOthers(before, "remnawave", {"remnawave"});
  }
}
