/** The configuration: nested maps are flattened to dotted keys and laid over what is
    already there. A map is iterated in an arbitrary order, which is a parameter. */
module SysConfig {
  import opened Models

  /** A decoded value that is not a nested map. */
  datatype Scalar = Str(text: string) | Bool(flag: bool) | Float64(value: real) | Integer(number: int) | Other(tag: nat)

  datatype Tree = Leaf(scalar: Scalar) | Node(children: map<string, Tree>)

  type Flat = map<string, Scalar>

  type Path = seq<string>

  /** The order in which the keys of the map found at a path are visited. */
  type Order = (Path, map<string, Tree>) -> seq<string>

  /** Every key is visited, and visited once. */
  ghost predicate Visits(keys: seq<string>, children: map<string, Tree>) {
    && (forall k :: k in keys <==> k in children)
    && (forall i, j :: 0 <= i < j < |keys| ==> keys[i] != keys[j])
  }

  ghost predicate IsOrder(order: Order) {
    forall path, children :: Visits(order(path, children), children)
  }

  function Extend(prefix: string, key: string): string {
    if prefix == "" then key else prefix + "." + key
  }

  // ----- flattening -----

  /** The flat map of the nested map at `path`, whose dotted key is `prefix`. */
  function Flatten(order: Order, t: Tree, path: Path, prefix: string): Flat
    requires t.Node?
    decreases t, 1, 0
  {
    FlattenKeys(order, t, path, prefix, order(path, t.children))
  }

  /** The flat map built while the keys are visited in the given order. */
  function FlattenKeys(order: Order, t: Tree, path: Path, prefix: string, keys: seq<string>): Flat
    requires t.Node?
    decreases t, 0, |keys|
  {
    if keys == [] then map[]
    else
      var key := keys[|keys| - 1];
      var before := FlattenKeys(order, t, path, prefix, keys[..|keys| - 1]);
      if key in t.children then before + Entry(order, t.children[key], path + [key], Extend(prefix, key)) else before
  }

  /** What one key contributes. */
  function Entry(order: Order, t: Tree, path: Path, name: string): Flat
    decreases t, 2, 0
  {
    match t
    case Leaf(scalar) => map[name := scalar]
    case Node(_) => Flatten(order, t, path, name)
  }

  method FlattenMap(order: Order, t: Tree, path: Path, prefix: string) returns (result: Flat)
    requires t.Node? && IsOrder(order)
    ensures result == Flatten(order, t, path, prefix)
    decreases t
  {
    result := map[];
    var keys := order(path, t.children);
    assert Visits(keys, t.children);
    assert FlattenKeys(order, t, path, prefix, []) == map[];
    assert Flatten(order, t, path, prefix) == FlattenKeys(order, t, path, prefix, keys);
    hide FlattenKeys, Flatten, IsOrder;
    for i := 0 to |keys|
      invariant result == FlattenKeys(order, t, path, prefix, keys[..i])
    {
      var key := keys[i];
      assert key in keys;
      OneMoreKey(order, t, path, prefix, keys, i);
      var newKey: string;
      if prefix == "" {
        newKey := key;
      } else {
        newKey := prefix + "." + key;
      }
      match t.children[key] {
        case Node(nested) =>
          var inner := FlattenMap(order, t.children[key], path + [key], newKey);
          result := Merge(result, inner);
        case Leaf(scalar) =>
          result := result[newKey := scalar];
      }
    }
    assert keys[..|keys|] == keys;
  }

  lemma OneMoreKey(order: Order, t: Tree, path: Path, prefix: string, keys: seq<string>, i: nat)
    requires t.Node? && i < |keys| && keys[i] in t.children
    ensures
      var before, name := FlattenKeys(order, t, path, prefix, keys[..i]), Extend(prefix, keys[i]);
      FlattenKeys(order, t, path, prefix, keys[..i + 1])
      == match t.children[keys[i]]
         case Leaf(scalar) => before[name := scalar]
         case Node(_) => before + Flatten(order, t.children[keys[i]], path + [keys[i]], name)
  {
    hide Flatten;
    assert keys[..i + 1][..i] == keys[..i];
  }

  /** Copies every entry of `from` into `into`. */
  method Merge(into: Flat, from: Flat) returns (result: Flat)
    ensures result == into + from
  {
    result := into;
    var todo := from.Keys;
    while todo != {}
      invariant todo <= from.Keys
      invariant result == into + map k | k in from && k !in todo :: from[k]
    {
      var k :| k in todo;
      todo := todo - {k};
      result := result[k := from[k]];
    }
    assert from == map k | k in from :: from[k];
  }

  // ----- what a path leads to -----

  /** The leaf at the end of a path of keys. */
  function LeafAt(t: Tree, path: Path): Option<Scalar> {
    match t
    case Leaf(scalar) => if path == [] then Some(scalar) else None
    case Node(children) => if path != [] && path[0] in children then LeafAt(children[path[0]], path[1..]) else None
  }

  /** The dotted key of a path. */
  function Key(prefix: string, path: Path): string
    decreases path
  {
    if path == [] then prefix else Key(Extend(prefix, path[0]), path[1..])
  }

  /** Every entry is the leaf of some path, under that path's key, and every path's key
      is there. */
  ghost predicate Flattens(t: Tree, prefix: string, result: Flat) {
    && (forall path | LeafAt(t, path).Some? :: Key(prefix, path) in result)
    && (forall k | k in result :: exists path :: LeafAt(t, path) == Some(result[k]) && Key(prefix, path) == k)
  }

  /** Whatever the order, nothing is lost and nothing is made up. */
  lemma {:induction false} FlattenFlattens(order: Order, t: Tree, at: Path, prefix: string)
    requires t.Node? && IsOrder(order)
    ensures Flattens(t, prefix, Flatten(order, t, at, prefix))
    decreases t, 1
  {
    var keys := order(at, t.children);
    assert Visits(keys, t.children);
    var result := Flatten(order, t, at, prefix);
    forall path | LeafAt(t, path).Some?
      ensures Key(prefix, path) in result
    {
      var i: nat :| i < |keys| && keys[i] == path[0];
      EntryFlattens(order, t.children[path[0]], at + [path[0]], Extend(prefix, path[0]));
      assert LeafAt(t.children[path[0]], path[1..]).Some?;
      KeptByLater(order, t, at, prefix, keys, i, Key(prefix, path));
    }
    forall k | k in result
      ensures exists path :: LeafAt(t, path) == Some(result[k]) && Key(prefix, path) == k
    {
      var i := LastWriter(order, t, at, prefix, keys, k);
      var key := keys[i];
      EntryFlattens(order, t.children[key], at + [key], Extend(prefix, key));
      var rest :| LeafAt(t.children[key], rest) == Some(result[k]) && Key(Extend(prefix, key), rest) == k;
      assert ([key] + rest)[1..] == rest;
      assert LeafAt(t, [key] + rest) == Some(result[k]) && Key(prefix, [key] + rest) == k;
    }
  }

  lemma {:induction false} EntryFlattens(order: Order, t: Tree, at: Path, name: string)
    requires IsOrder(order)
    ensures Flattens(t, name, Entry(order, t, at, name))
    decreases t, 2
  {
    match t
    case Leaf(scalar) =>
      assert LeafAt(t, []) == Some(scalar) && Key(name, []) == name;
    case Node(_) => FlattenFlattens(order, t, at, name);
  }

  /** A key written at position `i` is there at the end. */
  lemma {:induction false} KeptByLater(
    order: Order, t: Tree, at: Path, prefix: string, keys: seq<string>, i: nat, k: string)
    requires t.Node? && i < |keys| && keys[i] in t.children
    requires k in Entry(order, t.children[keys[i]], at + [keys[i]], Extend(prefix, keys[i]))
    ensures k in FlattenKeys(order, t, at, prefix, keys)
  {
    if i < |keys| - 1 {
      KeptByLater(order, t, at, prefix, keys[..|keys| - 1], i, k);
    }
  }

  /** The key whose entry gave `k` its final value. */
  lemma {:induction false} LastWriter(order: Order, t: Tree, at: Path, prefix: string, keys: seq<string>, k: string)
    returns (i: nat)
    requires t.Node? && k in FlattenKeys(order, t, at, prefix, keys)
    ensures i < |keys| && keys[i] in t.children
    ensures
      var entry := Entry(order, t.children[keys[i]], at + [keys[i]], Extend(prefix, keys[i]));
      k in entry && entry[k] == FlattenKeys(order, t, at, prefix, keys)[k]
  {
    i := |keys| - 1;
    if !(keys[i] in t.children && k in Entry(order, t.children[keys[i]], at + [keys[i]], Extend(prefix, keys[i]))) {
      i := LastWriter(order, t, at, prefix, keys[..|keys| - 1], k);
    }
  }

  /** A nested key is flattened to the names on its path, joined by a dot. */
  lemma FlattenExample(order: Order, x: Scalar, y: Scalar)
    requires IsOrder(order)
    ensures
      var file := Node(map["logging" := Node(map["level" := Leaf(x)]), "port" := Leaf(y)]);
      var result := Flatten(order, file, [], "");
      && result.Keys == {"logging.level", "port"} && result["logging.level"] == x && result["port"] == y
  {
    var file := Node(map["logging" := Node(map["level" := Leaf(x)]), "port" := Leaf(y)]);
    FlattenFlattens(order, file, [], "");
    ExampleLeaves(x, y);
    assert "logging.level"[0] != "port"[0];
    hide *;
    TwoLeaves(file, Flatten(order, file, [], ""), ["logging", "level"], ["port"]);
  }

  lemma TwoLeaves(t: Tree, result: Flat, p: Path, q: Path)
    requires Flattens(t, "", result) && LeafAt(t, p).Some? && LeafAt(t, q).Some? && Key("", p) != Key("", q)
    requires forall path | LeafAt(t, path).Some? :: path == p || path == q
    ensures result.Keys == {Key("", p), Key("", q)}
    ensures result[Key("", p)] == LeafAt(t, p).value && result[Key("", q)] == LeafAt(t, q).value
  {
    hide LeafAt, Key;
    forall k | k in result
      ensures (k == Key("", p) && result[k] == LeafAt(t, p).value)
           || (k == Key("", q) && result[k] == LeafAt(t, q).value)
    {
      var path :| LeafAt(t, path) == Some(result[k]) && Key("", path) == k;
    }
  }

  lemma OneLeaf(name: string, x: Scalar)
    ensures forall path :: LeafAt(Node(map[name := Leaf(x)]), path).Some? <==> path == [name]
    ensures LeafAt(Node(map[name := Leaf(x)]), [name]) == Some(x)
  {
    var t := Node(map[name := Leaf(x)]);
    forall path
      ensures LeafAt(t, path).Some? <==> path == [name]
    {
      if path != [] {
        assert path == [path[0]] + path[1..];
        assert path == [name] <==> path[0] == name && path[1..] == [];
      }
    }
    assert [name][1..] == [];
  }

  lemma ExampleLeaves(x: Scalar, y: Scalar)
    ensures
      var file := Node(map["logging" := Node(map["level" := Leaf(x)]), "port" := Leaf(y)]);
      && (forall path | LeafAt(file, path).Some? :: path == ["logging", "level"] || path == ["port"])
      && LeafAt(file, ["logging", "level"]) == Some(x) && LeafAt(file, ["port"]) == Some(y)
    ensures Key("", ["logging", "level"]) == "logging.level" && Key("", ["port"]) == "port"
  {
    var inner := Node(map["level" := Leaf(x)]);
    var file := Node(map["logging" := inner, "port" := Leaf(y)]);
    assert "logging"[0] != "port"[0];
    OneLeaf("level", x);
    assert ["logging", "level"][1..] == ["level"] && ["level"][1..] == [] && ["port"][1..] == [];
    forall path | LeafAt(file, path).Some?
      ensures path == ["logging", "level"] || path == ["port"]
    {
      assert path == [path[0]] + path[1..];
      if path[0] == "logging" {
        assert LeafAt(inner, path[1..]).Some?;
      } else {
        assert LeafAt(Leaf(y), path[1..]).Some?;
      }
    }
    assert LeafAt(file, ["logging", "level"]) == LeafAt(inner, ["level"]);
    assert LeafAt(file, ["port"]) == LeafAt(Leaf(y), []);
    assert Extend("logging", "level") == "logging.level";
  }

  // ----- when the order does not matter -----

  /** Two paths share a dotted key and lead to different leaves. */
  ghost predicate Clash(t: Tree, prefix: string, p: Path, q: Path) {
    && LeafAt(t, p).Some? && LeafAt(t, q).Some? && LeafAt(t, p) != LeafAt(t, q)
    && Key(prefix, p) == Key(prefix, q)
  }

  ghost predicate Clashes(t: Tree, prefix: string) {
    exists p, q :: Clash(t, prefix, p, q)
  }

  /** No other leaf shares the path's dotted key. */
  ghost predicate OwnKey(t: Tree, prefix: string, path: Path) {
    forall q | LeafAt(t, q).Some? && Key(prefix, q) == Key(prefix, path) :: LeafAt(t, q) == LeafAt(t, path)
  }

  /** Looking up a key that belongs to one leaf only gives that leaf, in any order. */
  lemma LookupOwnKey(order: Order, t: Tree, at: Path, prefix: string, path: Path)
    requires t.Node? && IsOrder(order) && LeafAt(t, path).Some? && OwnKey(t, prefix, path)
    ensures Key(prefix, path) in Flatten(order, t, at, prefix)
    ensures Flatten(order, t, at, prefix)[Key(prefix, path)] == LeafAt(t, path).value
  {
    FlattenFlattens(order, t, at, prefix);
    hide Flatten, LeafAt, Key, IsOrder;
    var result := Flatten(order, t, at, prefix);
    var k := Key(prefix, path);
    var other :| LeafAt(t, other) == Some(result[k]) && Key(prefix, other) == k;
  }

  /** Without a clash, looking up a path's key gives its leaf, in any order. */
  lemma LookupGivesLeaf(order: Order, t: Tree, at: Path, prefix: string, path: Path)
    requires t.Node? && IsOrder(order) && !Clashes(t, prefix) && LeafAt(t, path).Some?
    ensures Key(prefix, path) in Flatten(order, t, at, prefix)
    ensures Flatten(order, t, at, prefix)[Key(prefix, path)] == LeafAt(t, path).value
  {
    hide Flatten, LeafAt, Key, IsOrder;
    forall q | LeafAt(t, q).Some? && Key(prefix, q) == Key(prefix, path)
      ensures LeafAt(t, q) == LeafAt(t, path)
    {
      assert !Clash(t, prefix, path, q);
    }
    LookupOwnKey(order, t, at, prefix, path);
  }

  lemma WithinOther(o1: Order, o2: Order, t: Tree, at: Path, prefix: string)
    requires t.Node? && IsOrder(o1) && IsOrder(o2) && !Clashes(t, prefix)
    ensures forall k | k in Flatten(o1, t, at, prefix) ::
              k in Flatten(o2, t, at, prefix) && Flatten(o2, t, at, prefix)[k] == Flatten(o1, t, at, prefix)[k]
  {
    FlattenFlattens(o1, t, at, prefix);
    hide Flatten, LeafAt, Key, Clashes, IsOrder;
    forall k | k in Flatten(o1, t, at, prefix)
      ensures k in Flatten(o2, t, at, prefix) && Flatten(o2, t, at, prefix)[k] == Flatten(o1, t, at, prefix)[k]
    {
      var path :| LeafAt(t, path) == Some(Flatten(o1, t, at, prefix)[k]) && Key(prefix, path) == k;
      LookupGivesLeaf(o2, t, at, prefix, path);
    }
  }

  /** Without a clash the result is the same for every order. */
  lemma OrderDoesNotMatter(o1: Order, o2: Order, t: Tree, at: Path, prefix: string)
    requires t.Node? && IsOrder(o1) && IsOrder(o2) && !Clashes(t, prefix)
    ensures Flatten(o1, t, at, prefix) == Flatten(o2, t, at, prefix)
  {
    WithinOther(o1, o2, t, at, prefix);
    WithinOther(o2, o1, t, at, prefix);
    hide Flatten, Clashes, IsOrder;
  }

  /** The keys of a set in some order. */
  ghost function Listing(keys: set<string>): (list: seq<string>)
    ensures forall k :: k in list <==> k in keys
    ensures forall i, j :: 0 <= i < j < |list| ==> list[i] != list[j]
  {
    if keys == {} then []
    else
      var k :| k in keys;
      Listing(keys - {k}) + [k]
  }

  /** Visits the keys along `path` last. */
  ghost function Towards(path: Path): Order {
    (at: Path, children: map<string, Tree>) =>
      if at < path && path[|at|] in children
      then Listing(children.Keys - {path[|at|]}) + [path[|at|]]
      else Listing(children.Keys)
  }

  lemma TowardsIsOrder(path: Path)
    ensures IsOrder(Towards(path))
  {
    hide Listing;
  }

  lemma TowardsLast(at: Path, rest: Path, children: map<string, Tree>)
    requires rest != [] && rest[0] in children
    ensures Towards(at + rest)(at, children) == Listing(children.Keys - {rest[0]}) + [rest[0]]
  {
    hide Listing;
    assert at < at + rest && (at + rest)[|at|] == rest[0];
  }

  /** The key visited last decides the values of its entry. */
  lemma LastKeyWins(order: Order, t: Tree, at: Path, prefix: string, front: seq<string>, key: string, k: string)
    requires t.Node? && key in t.children && k in Entry(order, t.children[key], at + [key], Extend(prefix, key))
    ensures k in FlattenKeys(order, t, at, prefix, front + [key])
    ensures FlattenKeys(order, t, at, prefix, front + [key])[k]
         == Entry(order, t.children[key], at + [key], Extend(prefix, key))[k]
  {
    hide Entry;
    assert (front + [key])[..|front|] == front;
  }

  /** With that order the leaf at the end of `path` wins its key. */
  lemma {:induction false} TowardsWins(t: Tree, at: Path, rest: Path, prefix: string)
    requires LeafAt(t, rest).Some?
    ensures
      var entry := Entry(Towards(at + rest), t, at, prefix);
      Key(prefix, rest) in entry && entry[Key(prefix, rest)] == LeafAt(t, rest).value
    decreases t
  {
    if t.Node? {
      var key, order := rest[0], Towards(at + rest);
      assert (at + [key]) + rest[1..] == at + rest;
      TowardsWins(t.children[key], at + [key], rest[1..], Extend(prefix, key));
      TowardsLast(at, rest, t.children);
      assert Key(prefix, rest) == Key(Extend(prefix, key), rest[1..]);
      LastKeyWins(order, t, at, prefix, Listing(t.children.Keys - {key}), key, Key(prefix, rest));
      hide Listing, Towards, Key, FlattenKeys;
    }
  }

  /** The result is independent of the order exactly if no two leaves clash. */
  lemma OrderMattersIffClash(t: Tree, prefix: string)
    requires t.Node?
    ensures (forall o1, o2 | IsOrder(o1) && IsOrder(o2) :: Flatten(o1, t, [], prefix) == Flatten(o2, t, [], prefix))
            <==> !Clashes(t, prefix)
  {
    hide IsOrder, LeafAt, Key, Flatten;
    if Clashes(t, prefix) {
      var p, q :| Clash(t, prefix, p, q);
      assert [] + p == p && [] + q == q;
      TowardsWins(t, [], p, prefix);
      TowardsWins(t, [], q, prefix);
      TowardsIsOrder(p);
      TowardsIsOrder(q);
    } else {
      forall o1, o2 | IsOrder(o1) && IsOrder(o2)
        ensures Flatten(o1, t, [], prefix) == Flatten(o2, t, [], prefix)
      {
        OrderDoesNotMatter(o1, o2, t, [], prefix);
      }
    }
  }

  // ----- plain keys -----

  /** Not empty, and without a dot. */
  predicate Plain(key: string) {
    key != "" && '.' !in key
  }

  predicate PlainKeys(t: Tree) {
    match t
    case Leaf(_) => true
    case Node(children) => forall k | k in children :: Plain(k) && PlainKeys(children[k])
  }

  predicate PlainPath(path: Path) {
    forall i :: 0 <= i < |path| ==> Plain(path[i])
  }

  lemma {:induction false} PathsArePlain(t: Tree, path: Path)
    requires PlainKeys(t) && LeafAt(t, path).Some?
    ensures PlainPath(path)
  {
    if t.Node? {
      PathsArePlain(t.children[path[0]], path[1..]);
      assert forall i :: 1 <= i < |path| ==> path[i] == path[1..][i - 1];
    }
  }

  /** A key starts with its prefix, and goes on with a dot if it goes on. */
  lemma {:induction false} KeyStarts(prefix: string, path: Path)
    requires PlainPath(path) && prefix != ""
    ensures
      var k := Key(prefix, path);
      && |prefix| <= |k| && k[..|prefix|] == prefix
      && (path == [] <==> |k| == |prefix|)
      && (path != [] ==> k[|prefix|] == '.')
    decreases path
  {
    if path != [] {
      KeyStarts(Extend(prefix, path[0]), path[1..]);
      assert Plain(path[0]);
      var k := Key(prefix, path);
      assert k[..|prefix| + 1 + |path[0]|] == prefix + "." + path[0];
      assert k[..|prefix| + 1 + |path[0]|][..|prefix|] == prefix;
      assert k[|prefix|] == (prefix + "." + path[0])[|prefix|];
    }
  }

  /** Where the first name of a path ends. */
  lemma FirstNames(prefix: string, x: string, y: string, k: string)
    requires Plain(x) && Plain(y)
    requires
      var a, b := Extend(prefix, x), Extend(prefix, y);
      && |a| <= |b| <= |k| && k[..|a|] == a && k[..|b|] == b
      && (|k| == |a| || k[|a|] == '.')
    ensures x == y
  {
    var a, b := Extend(prefix, x), Extend(prefix, y);
    var n := if prefix == "" then 0 else |prefix| + 1;
    assert a[n..] == x && b[n..] == y;
    forall i | n <= i < |b|
      ensures b[i] != '.'
    {
      assert b[i] == y[i - n] && y[i - n] in y;
    }
    assert forall i :: 0 <= i < |b| ==> k[..|b|][i] == k[i];
    assert |a| == |b|;
  }

  /** Distinct paths of plain keys never share a dotted key. */
  lemma {:induction false} KeyInjective(prefix: string, p: Path, q: Path)
    requires PlainPath(p) && PlainPath(q) && Key(prefix, p) == Key(prefix, q)
    ensures p == q
    decreases |p|
  {
    if p == [] || q == [] {
      NonEmptyPathExtends(prefix, if p == [] then q else p);
    } else {
      assert Plain(p[0]) && Plain(q[0]);
      var a, b := Extend(prefix, p[0]), Extend(prefix, q[0]);
      KeyStarts(a, p[1..]);
      KeyStarts(b, q[1..]);
      if |a| <= |b| {
        FirstNames(prefix, p[0], q[0], Key(prefix, p));
      } else {
        FirstNames(prefix, q[0], p[0], Key(prefix, p));
      }
      KeyInjective(a, p[1..], q[1..]);
      assert p == [p[0]] + p[1..] && q == [q[0]] + q[1..];
    }
  }

  lemma NonEmptyPathExtends(prefix: string, path: Path)
    requires PlainPath(path)
    ensures path != [] ==> |Key(prefix, path)| > |prefix|
  {
    if path != [] {
      assert Plain(path[0]);
      KeyStarts(Extend(prefix, path[0]), path[1..]);
    }
  }

  lemma PlainPathsDistinct(t: Tree, prefix: string, p: Path, q: Path)
    requires PlainKeys(t) && LeafAt(t, p).Some? && LeafAt(t, q).Some? && Key(prefix, p) == Key(prefix, q)
    ensures p == q
  {
    PathsArePlain(t, p);
    PathsArePlain(t, q);
    KeyInjective(prefix, p, q);
  }

  /** Plain keys never clash, so the order never matters for them. */
  lemma PlainNeverClashes(t: Tree, prefix: string)
    requires PlainKeys(t)
    ensures !Clashes(t, prefix)
  {
    hide LeafAt, Key, PlainKeys;
    forall p, q | LeafAt(t, p).Some? && LeafAt(t, q).Some? && Key(prefix, p) == Key(prefix, q)
      ensures p == q
    {
      PlainPathsDistinct(t, prefix, p, q);
    }
  }

  /** For plain keys, whatever the order: every leaf is found under its dotted key, and
      every entry is the leaf of exactly one path. */
  lemma PlainFlattening(order: Order, t: Tree, prefix: string)
    requires t.Node? && IsOrder(order) && PlainKeys(t)
    ensures
      var result := Flatten(order, t, [], prefix);
      && (forall p | LeafAt(t, p).Some? :: Key(prefix, p) in result && result[Key(prefix, p)] == LeafAt(t, p).value)
      && Flattens(t, prefix, result)
      && (forall p, q | LeafAt(t, p).Some? && LeafAt(t, q).Some? :: Key(prefix, p) == Key(prefix, q) ==> p == q)
  {
    FlattenFlattens(order, t, [], prefix);
    PlainNeverClashes(t, prefix);
    hide Flatten, LeafAt, Key, IsOrder, PlainKeys, Clashes, Flattens;
    forall p, q | LeafAt(t, p).Some? && LeafAt(t, q).Some? && Key(prefix, p) == Key(prefix, q)
      ensures p == q
    {
      PlainPathsDistinct(t, prefix, p, q);
    }
    forall p | LeafAt(t, p).Some?
      ensures Key(prefix, p) in Flatten(order, t, [], prefix)
      ensures Flatten(order, t, [], prefix)[Key(prefix, p)] == LeafAt(t, p).value
    {
      LookupGivesLeaf(order, t, [], prefix, p);
    }
  }

  /** A dot in a key makes a clash, and so does an empty key. */
  lemma DottedAndEmptyKeysClash(x: Scalar, y: Scalar)
    requires x != y
    ensures Clashes(Node(map["a.b" := Leaf(x), "a" := Node(map["b" := Leaf(y)])]), "")
    ensures Clashes(Node(map["b" := Leaf(x), "" := Node(map["b" := Leaf(y)])]), "")
  {
    var b := Node(map["b" := Leaf(y)]);
    var dotted := Node(map["a.b" := Leaf(x), "a" := b]);
    var empty := Node(map["b" := Leaf(x), "" := b]);
    LeafBelow(b, "b", []);
    LeafBelow(dotted, "a.b", []);
    LeafBelow(dotted, "a", ["b"]);
    LeafBelow(empty, "b", []);
    LeafBelow(empty, "", ["b"]);
    assert Key("a", ["b"]) == "a" + "." + "b" == "a.b";
    assert Clash(dotted, "", ["a.b"] + [], ["a"] + ["b"]);
    assert Clash(empty, "", ["b"] + [], [""] + ["b"]);
  }

  lemma LeafBelow(t: Tree, key: string, rest: Path)
    requires t.Node? && key in t.children
    ensures LeafAt(t, [key] + rest) == LeafAt(t.children[key], rest)
    ensures forall prefix :: Key(prefix, [key] + rest) == Key(Extend(prefix, key), rest)
  {
    assert ([key] + rest)[1..] == rest;
  }

  // ----- the configuration object -----

  /** What reading the file gives. An empty file holds a map without keys. */
  datatype File = Missing | Unreadable | Malformed | Parsed(tree: Tree)

  predicate WellTyped(file: File) {
    file.Parsed? ==> file.tree.Node?
  }

  /** What a file lays over the configuration. */
  function Overlay(order: Order, file: File): Flat
    requires WellTyped(file)
  {
    if file.Parsed? then Flatten(order, file.tree, [], "") else map[]
  }

  /** Toward zero, as a conversion to an integer type does. */
  function Truncate(x: real): (n: int)
    ensures x >= 0.0 ==> n as real <= x < (n + 1) as real
    ensures x < 0.0 ==> (n - 1) as real < x <= n as real
  {
    if x >= 0.0 then x.Floor else -(-x).Floor
  }

  function IntIn(data: Flat, key: string): int {
    if key in data && data[key].Float64? then Truncate(data[key].value) else 0
  }

  function StringIn(data: Flat, key: string): string {
    if key in data && data[key].Str? then data[key].text else ""
  }

  class Config {
    var data: Flat

    constructor ()
      ensures data == map[]
    {
      data := map[];
    }

    method WithDefaultValues(defaults: Flat)
      modifies this`data
      ensures data == old(data) + defaults
    {
      data := Merge(data, defaults);
    }

    /** A missing file is no error; a file that cannot be read or parsed changes
        nothing; anything else is laid over the present values. */
    method LoadFromFile(order: Order, file: File) returns (ok: bool)
      requires IsOrder(order) && WellTyped(file)
      modifies this`data
      ensures ok <==> file.Missing? || file.Parsed?
      ensures data == old(data) + Overlay(order, file)
    {
      if !file.Parsed? {
        return file.Missing?;
      }
      var flattened := FlattenMap(order, file.tree, [], "");
      data := Merge(data, flattened);
      return true;
    }

    /** Listeners are called after a successful load only; their errors are ignored. */
    method ReloadConfig(order: Order, file: File, listeners: nat) returns (ok: bool, notified: seq<Flat>)
      requires IsOrder(order) && WellTyped(file)
      modifies this`data
      ensures ok <==> file.Missing? || file.Parsed?
      ensures data == old(data) + Overlay(order, file)
      ensures |notified| == (if ok then listeners else 0) && forall seen | seen in notified :: seen == data
    {
      ok := LoadFromFile(order, file);
      notified := [];
      if !ok {
        return;
      }
      for i := 0 to listeners
        invariant |notified| == i && forall seen | seen in notified :: seen == data
      {
        notified := notified + [data];
      }
    }

    method GetString(key: string) returns (r: string)
      ensures r == StringIn(data, key)
    {
      if key in data && data[key].Str? {
        return data[key].text;
      }
      return "";
    }

    method GetInt(key: string) returns (r: int)
      ensures r == IntIn(data, key)
    {
      if key in data && data[key].Float64? {
        return Truncate(data[key].value);
      }
      return 0;
    }
  }

  // ----- repeated reloads -----

  /** One reload: the file as it is then, and the order its maps are visited in. */
  datatype Reload = Reload(order: Order, file: File)

  predicate AllTyped(reloads: seq<Reload>) {
    forall i :: 0 <= i < |reloads| ==> WellTyped(reloads[i].file)
  }

  function OverlayOf(reload: Reload): Flat
    requires WellTyped(reload.file)
  {
    Overlay(reload.order, reload.file)
  }

  /** The configuration after the files have been loaded one after the other. */
  function Reloaded(defaults: Flat, files: seq<Reload>): Flat
    requires AllTyped(files)
  {
    if files == [] then defaults
    else Reloaded(defaults, files[..|files| - 1]) + OverlayOf(files[|files| - 1])
  }

  /** File `i` is the last one that sets the key. */
  ghost predicate LastSetBy(files: seq<Reload>, i: nat, key: string)
    requires AllTyped(files)
  {
    && i < |files| && key in OverlayOf(files[i])
    && forall j :: i < j < |files| ==> key !in OverlayOf(files[j])
  }

  /** After any sequence of reloads every key has the value given to it last, in a file
      or by default; leaving a key out, or failing to load, takes nothing back. */
  lemma {:induction false} LastFileWins(defaults: Flat, files: seq<Reload>, key: string)
    requires AllTyped(files)
    ensures
      var data := Reloaded(defaults, files);
      && (key in data <==> key in defaults || exists i: nat :: LastSetBy(files, i, key))
      && (forall i: nat | LastSetBy(files, i, key) ::
            key in data && data[key] == OverlayOf(files[i])[key])
      && ((forall i: nat :: !LastSetBy(files, i, key)) && key in defaults ==>
            key in data && data[key] == defaults[key])
  {
    hide OverlayOf;
    if files != [] {
      var n := |files| - 1;
      var front := files[..n];
      LastFileWins(defaults, front, key);
      if key in OverlayOf(files[n]) {
        assert LastSetBy(files, n, key);
        forall i: nat | LastSetBy(files, i, key)
          ensures i == n
        {
          assert i >= n;
        }
      } else {
        forall i: nat
          ensures LastSetBy(files, i, key) <==> LastSetBy(front, i, key)
        {
          SetBefore(files, i, key);
        }
      }
    }
  }

  lemma SetBefore(files: seq<Reload>, i: nat, key: string)
    requires AllTyped(files) && files != []
    requires key !in OverlayOf(files[|files| - 1])
    ensures LastSetBy(files, i, key) <==> LastSetBy(files[..|files| - 1], i, key)
  {
    hide OverlayOf;
    var n := |files| - 1;
    assert forall j :: 0 <= j < n ==> files[..n][j] == files[j];
  }

  /** An integer in the file hides the default, whatever else is there, and reads as zero:
      it is read back exactly if it is zero. */
  lemma IntegersReadAsZero(order: Order, defaults: Flat, tree: Tree, path: Path)
    requires IsOrder(order) && tree.Node? && LeafAt(tree, path).Some? && OwnKey(tree, "", path)
    requires LeafAt(tree, path).value.Integer?
    ensures
      var data := Reloaded(defaults, [Reload(order, Parsed(tree))]);
      && Key("", path) in data && data[Key("", path)] == LeafAt(tree, path).value
      && IntIn(data, Key("", path)) == 0
      && (IntIn(data, Key("", path)) == LeafAt(tree, path).value.number <==> LeafAt(tree, path).value.number == 0)
  {
    LookupOwnKey(order, tree, [], "", path);
    hide Flatten, LeafAt, Key, IsOrder;
    assert [Reload(order, Parsed(tree))][..0] == [];
  }

  /** Every other value in the file reads as what it is: a text as itself, a number as its
      integer part, and each as nothing when it is asked for as the other. */
  lemma ValuesReadBack(order: Order, defaults: Flat, tree: Tree, path: Path)
    requires IsOrder(order) && tree.Node? && LeafAt(tree, path).Some? && OwnKey(tree, "", path)
    ensures
      var data, k := Reloaded(defaults, [Reload(order, Parsed(tree))]), Key("", path);
      match LeafAt(tree, path).value
      case Str(text) => StringIn(data, k) == text && IntIn(data, k) == 0
      case Float64(x) =>
        && StringIn(data, k) == ""
        && (x >= 0.0 ==> IntIn(data, k) as real <= x < IntIn(data, k) as real + 1.0)
        && (x < 0.0 ==> IntIn(data, k) as real - 1.0 < x <= IntIn(data, k) as real)
      case _ => StringIn(data, k) == "" && IntIn(data, k) == 0
  {
    LookupOwnKey(order, tree, [], "", path);
    hide Flatten, LeafAt, Key, IsOrder;
    assert [Reload(order, Parsed(tree))][..0] == [];
  }
}
