/**
 YAML documents as values, and what the mapping helpers of internal/generator/yamlgen/inject.go mean on
 them.  A mapping is a flat list of kids: key, value, key, value, ...
 */
module YamlTree {
  import opened Options

  datatype Kind = Zero | Document | Sequence | Mapping | Scalar | Alias

  datatype Style = Unstyled | DoubleQuoted | OtherStyle(bits: int)

  datatype Tree = Tree(kind: Kind, tag: string, value: string, style: Style, kids: seq<Tree>)

  // ---------------------------------------------------------------- lookup

  /** Is kid i a key (and not a value, nor a last kid without one)? */
  predicate KeyAt(kids: seq<Tree>, i: int, key: string) {
    0 <= i < |kids| - 1 && i % 2 == 0 && kids[i].value == key
  }

  /** The position of the first pair with this key. */
  function FindKey(kids: seq<Tree>, key: string): (i: Option<nat>)
    ensures i.Some? ==> KeyAt(kids, i.value, key)
  {
    if |kids| < 2 then None
    else if kids[0].value == key then Some(0)
    else match FindKey(kids[2..], key)
      case None => None
      case Some(n) => Some(n + 2)
  }

  lemma {:induction false} FindKeyIs(kids: seq<Tree>, key: string, i: nat)
    requires KeyAt(kids, i, key)
    requires forall k :: 0 <= k < i ==> !KeyAt(kids, k, key)
    ensures FindKey(kids, key) == Some(i)
  {
    if i == 0 {
    } else {
      assert !KeyAt(kids, 0, key);
      forall k | 0 <= k < i - 2 ensures !KeyAt(kids[2..], k, key) {
        assert !KeyAt(kids, k + 2, key);
      }
      FindKeyIs(kids[2..], key, i - 2);
    }
  }

  lemma {:induction false} FindKeyNone(kids: seq<Tree>, key: string)
    ensures FindKey(kids, key) == None <==> forall k :: !KeyAt(kids, k, key)
  {
    if |kids| < 2 || kids[0].value == key {
    } else {
      FindKeyNone(kids[2..], key);
      if FindKey(kids[2..], key) == None {
        forall k ensures !KeyAt(kids, k, key) {
          assert !KeyAt(kids[2..], k - 2, key);
        }
      }
    }
  }

  lemma {:induction false} FindKeyIsFirst(kids: seq<Tree>, key: string, k: nat)
    requires FindKey(kids, key).Some? && k < FindKey(kids, key).value
    ensures !KeyAt(kids, k, key)
  {
    if kids[0].value == key || k < 2 {
    } else {
      FindKeyIsFirst(kids[2..], key, k - 2);
    }
  }

  function Get(t: Tree, key: string): Option<Tree> {
    if t.kind != Mapping then None
    else match FindKey(t.kids, key) case None => None case Some(i) => Some(t.kids[i + 1])
  }

  // ---------------------------------------------------------------- scalars

  function KeyTree(s: string): Tree {
    Tree(Scalar, "!!str", s, Unstyled, [])
  }

  function StrTree(s: string): Tree {
    Tree(Scalar, "!!str", s, DoubleQuoted, [])
  }

  function MappingOf(kids: seq<Tree>): Tree {
    Tree(Mapping, "", "", Unstyled, kids)
  }

  function SequenceOf(kids: seq<Tree>): Tree {
    Tree(Sequence, "", "", Unstyled, kids)
  }

  // ---------------------------------------------------------------- setting and deleting a pair

  function WithPair(t: Tree, key: string, v: Tree): Tree {
    match FindKey(t.kids, key)
    case Some(i) => t.(kids := t.kids[i + 1 := v])
    case None => t.(kids := t.kids + [KeyTree(key), v])
  }

  function WithoutPair(t: Tree, key: string): Tree {
    match FindKey(t.kids, key)
    case Some(i) => t.(kids := t.kids[..i] + t.kids[i + 2..])
    case None => t
  }

  /** Where setting a key puts its value. */
  function SetAt(kids: seq<Tree>, key: string): nat {
    match FindKey(kids, key) case Some(i) => i + 1 case None => |kids| + 1
  }

  lemma SetThenReplace(t: Tree, key: string, v: Tree, w: Tree)
    ensures SetAt(t.kids, key) < |WithPair(t, key, v).kids|
    ensures WithPair(t, key, v).(kids := WithPair(t, key, v).kids[SetAt(t.kids, key) := w]) == WithPair(t, key, w)
  {
  }

  lemma SameKeysSameFind(a: seq<Tree>, b: seq<Tree>, key: string)
    requires forall k :: KeyAt(a, k, key) <==> KeyAt(b, k, key)
    ensures FindKey(a, key) == FindKey(b, key)
  {
    FindKeyNone(a, key);
    FindKeyNone(b, key);
    if FindKey(a, key).Some? {
      var j := FindKey(a, key).value;
      forall k: nat | k < j ensures !KeyAt(b, k, key) {
        FindKeyIsFirst(a, key, k);
      }
      FindKeyIs(b, key, j);
    }
  }

  /** Replacing a value hides no other key, even in a mapping whose last key lacks its value. */
  lemma GetAfterReplace(t: Tree, key: string, v: Tree, other: string)
    requires FindKey(t.kids, key).Some? && key != other
    ensures Get(WithPair(t, key, v), other) == Get(t, other)
  {
    SameKeysSameFind(t.kids, WithPair(t, key, v).kids, other);
  }

  /** Every key has its value; what a YAML parser produces. */
  predicate Paired(t: Tree) {
    t.kind == Mapping && |t.kids| % 2 == 0
  }

  /** The pairs whose keys are not in the set, in order: what a change to those keys must leave alone. */
  function Others(kids: seq<Tree>, keys: set<string>): (rest: seq<Tree>)
  {
    if |kids| < 2 then kids
    else (if kids[0].value in keys then [] else kids[..2]) + Others(kids[2..], keys)
  }

  lemma {:induction false} OthersOfAppend(a: seq<Tree>, b: seq<Tree>, keys: set<string>)
    requires |a| % 2 == 0
    ensures Others(a + b, keys) == Others(a, keys) + Others(b, keys)
  {
    if a == [] {
      assert a + b == b;
    } else {
      assert (a + b)[2..] == a[2..] + b && (a + b)[..2] == a[..2];
      OthersOfAppend(a[2..], b, keys);
    }
  }

  lemma OthersOfPair(k: Tree, v: Tree, keys: set<string>)
    requires k.value in keys
    ensures Others([k, v], keys) == []
  {
    assert [k, v][2..] == [];
  }

  /** Around the pair at i. */
  lemma OthersAround(kids: seq<Tree>, i: nat, keys: set<string>)
    requires i + 1 < |kids| && KeyAt(kids, i, kids[i].value) && kids[i].value in keys
    ensures Others(kids, keys) == Others(kids[..i], keys) + Others(kids[i + 2..], keys)
  {
    assert kids == kids[..i] + ([kids[i], kids[i + 1]] + kids[i + 2..]);
    OthersOfAppend(kids[..i], [kids[i], kids[i + 1]] + kids[i + 2..], keys);
    OthersOfAppend([kids[i], kids[i + 1]], kids[i + 2..], keys);
    OthersOfPair(kids[i], kids[i + 1], keys);
  }

  /** Setting a key leaves every pair with another key as it was, and where it was. */
  lemma WithPairKeepsOthers(t: Tree, key: string, v: Tree, keys: set<string>)
    requires Paired(t) && key in keys
    ensures Paired(WithPair(t, key, v)) && Others(WithPair(t, key, v).kids, keys) == Others(t.kids, keys)
  {
    var after := WithPair(t, key, v).kids;
    match FindKey(t.kids, key)
    case Some(i) =>
      OthersAround(t.kids, i, keys);
      OthersAround(after, i, keys);
      assert after[..i] == t.kids[..i] && after[i + 2..] == t.kids[i + 2..];
    case None =>
      OthersOfAppend(t.kids, [KeyTree(key), v], keys);
      OthersOfPair(KeyTree(key), v, keys);
  }

  lemma WithoutPairKeepsOthers(t: Tree, key: string, keys: set<string>)
    requires Paired(t) && key in keys
    ensures Paired(WithoutPair(t, key)) && Others(WithoutPair(t, key).kids, keys) == Others(t.kids, keys)
  {
    match FindKey(t.kids, key)
    case Some(i) =>
      OthersAround(t.kids, i, keys);
      OthersOfAppend(t.kids[..i], t.kids[i + 2..], keys);
    case None =>
  }

  /** A lookup sees only the pairs with its own key. */
  lemma {:induction false} GetAmongOthers(kids: seq<Tree>, key: string, keys: set<string>)
    requires key !in keys
    ensures Get(MappingOf(kids), key) == Get(MappingOf(Others(kids, keys)), key)
  {
    if |kids| < 2 {
    } else {
      GetAmongOthers(kids[2..], key, keys);
      var rest := Others(kids[2..], keys);
      GetUnfolds(kids, key);
      if kids[0].value in keys {
        assert Others(kids, keys) == [] + rest == rest;
      } else {
        assert Others(kids, keys) == kids[..2] + rest;
        assert (kids[..2] + rest)[2..] == rest;
        GetUnfolds(kids[..2] + rest, key);
      }
    }
  }

  lemma GetUnfolds(kids: seq<Tree>, key: string)
    requires 2 <= |kids|
    ensures Get(MappingOf(kids), key) ==
      if kids[0].value == key then Some(kids[1]) else Get(MappingOf(kids[2..]), key)
  {
  }

  /** Two mappings with the same other pairs agree on every other key. */
  lemma SameOthersSameGet(a: Tree, b: Tree, key: string, keys: set<string>)
    requires a.kind == Mapping && b.kind == Mapping && Others(a.kids, keys) == Others(b.kids, keys)
    requires key !in keys
    ensures Get(a, key) == Get(b, key)
  {
    GetAmongOthers(a.kids, key, keys);
    GetAmongOthers(b.kids, key, keys);
  }

  lemma GetAfterSet(t: Tree, key: string, v: Tree)
    requires Paired(t)
    ensures Get(WithPair(t, key, v), key) == Some(v)
  {
    var after := WithPair(t, key, v).kids;
    match FindKey(t.kids, key)
    case Some(i) =>
      forall k | 0 <= k < i ensures !KeyAt(after, k, key) {
        FindKeyIsFirst(t.kids, key, k);
      }
      FindKeyIs(after, key, i);
    case None =>
      FindKeyNone(t.kids, key);
      forall k | 0 <= k < |t.kids| ensures !KeyAt(after, k, key) {
        assert !KeyAt(t.kids, k, key);
      }
      assert after[|t.kids|] == KeyTree(key);
      FindKeyIs(after, key, |t.kids|);
  }

  /** How many pairs have this key. */
  function Occurrences(kids: seq<Tree>, key: string): nat {
    if |kids| < 2 then 0
    else (if kids[0].value == key then 1 else 0) + Occurrences(kids[2..], key)
  }

  lemma {:induction false} FoundIffOccurs(kids: seq<Tree>, key: string)
    ensures FindKey(kids, key) == None <==> Occurrences(kids, key) == 0
  {
    if |kids| < 2 {
    } else {
      FoundIffOccurs(kids[2..], key);
    }
  }

  lemma {:induction false} WithoutPairTakesOne(t: Tree, key: string)
    ensures var n := Occurrences(t.kids, key);
      Occurrences(WithoutPair(t, key).kids, key) == if n == 0 then 0 else n - 1
    decreases |t.kids|
  {
    FoundIffOccurs(t.kids, key);
    var i := FindKey(t.kids, key);
    if i == Some(0) {
      assert WithoutPair(t, key).kids == t.kids[2..];
    } else if i.Some? {
      var rest := t.(kids := t.kids[2..]);
      WithoutPairTakesOne(rest, key);
      var after := WithoutPair(t, key).kids;
      var n := i.value;
      assert FindKey(rest.kids, key) == Some(n - 2);
      assert rest.kids[..n - 2] == t.kids[2..n] && rest.kids[n..] == t.kids[n + 2..];
      assert after[2..] == WithoutPair(rest, key).kids && after[0] == t.kids[0];
      FoundIffOccurs(rest.kids, key);
    }
  }

  /** A deleted key is gone exactly when it was not there twice. */
  lemma DeletedIffUnique(t: Tree, key: string)
    ensures FindKey(WithoutPair(t, key).kids, key) == None <==> Occurrences(t.kids, key) <= 1
  {
    WithoutPairTakesOne(t, key);
    FoundIffOccurs(WithoutPair(t, key).kids, key);
  }

  /** Under this key a reader finds v, and no second pair. */
  predicate Has(kids: seq<Tree>, key: string, v: Option<Tree>) {
    && |kids| % 2 == 0 && Get(MappingOf(kids), key) == v
    && Occurrences(kids, key) == if v.Some? then 1 else 0
  }

  lemma HasInPair(k: string, v: Tree, key: string)
    ensures Has([KeyTree(k), v], key, if k == key then Some(v) else None)
  {
    assert [KeyTree(k), v][2..] == [];
  }

  lemma {:induction false} OccurrencesAppend(a: seq<Tree>, b: seq<Tree>, key: string)
    requires |a| % 2 == 0
    ensures Occurrences(a + b, key) == Occurrences(a, key) + Occurrences(b, key)
    decreases |a|
  {
    if a == [] {
      assert a + b == b;
    } else {
      assert (a + b)[2..] == a[2..] + b && (a + b)[0] == a[0];
      OccurrencesAppend(a[2..], b, key);
    }
  }

  /** A key of a longer mapping is looked up in its first part, and then in the rest. */
  lemma {:induction false} GetInAppend(a: seq<Tree>, b: seq<Tree>, key: string)
    requires |a| % 2 == 0
    ensures Get(MappingOf(a + b), key) ==
      if Get(MappingOf(a), key).Some? then Get(MappingOf(a), key) else Get(MappingOf(b), key)
    decreases |a|
  {
    if a == [] {
      assert a + b == b;
    } else {
      assert (a + b)[2..] == a[2..] + b && (a + b)[0] == a[0] && (a + b)[1] == a[1];
      GetUnfolds(a + b, key);
      GetUnfolds(a, key);
      GetInAppend(a[2..], b, key);
    }
  }

  lemma HasInAppend(a: seq<Tree>, b: seq<Tree>, key: string, va: Option<Tree>, vb: Option<Tree>)
    requires Has(a, key, va) && Has(b, key, vb) && (va == None || vb == None)
    ensures Has(a + b, key, if va.Some? then va else vb)
  {
    OccurrencesAppend(a, b, key);
    GetInAppend(a, b, key);
  }
}
