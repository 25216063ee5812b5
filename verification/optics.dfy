/** src/Optics.ts: `provideUnsafeOpticsFor`, which derives from a schema a
    tree of optics mirroring its struct and tuple shape. Every node of the
    tree holds the accessor (`self`) that focuses on that part of a value,
    built by composing the parent's accessor with one key step. An accessor
    is modelled by the key path it follows. */
module Optics {
  import opened Wrappers
  import opened JsValues
  import opened Ast
  import opened Common

  /** A lens that reads a value by following a path of keys: `Optic.id` is
      the empty path, and `parent.compose(Optic.key(k))` is `parent + [k]`. */
  type Accessor = seq<Key>

  /** `Optic.get(accessor)(v)`: the key steps applied one after another;
      None when a step reads a property of `undefined` or `null`, which
      throws. */
  function Get(path: Accessor, v: Value): Option<Value>
    decreases |path|
  {
    if |path| == 0 then Some(v)
    else match GetProp(v, path[0])
      case None => None
      case Some(w) => Get(path[1..], w)
  }

  /** Composing one more key step reads that key of what the accessor reads. */
  lemma {:induction false} GetCompose(path: Accessor, k: Key, v: Value)
    ensures Get(path + [k], v) == match Get(path, v) case None => None case Some(w) => GetProp(w, k)
    decreases |path|
  {
    if |path| == 0 {
      assert ([] + [k])[1..] == [];
    } else {
      assert (path + [k])[1..] == path[1..] + [k];
      match GetProp(v, path[0])
      case None =>
      case Some(w) => GetCompose(path[1..], k, w);
    }
  }

  /** The identity accessor reads the value itself, and composition is
      associative: reading along `p + q` reads `q` from what `p` reads. */
  lemma {:induction false} GetConcat(p: Accessor, q: Accessor, v: Value)
    ensures Get([], v) == Some(v)
    ensures Get(p + q, v) == match Get(p, v) case None => None case Some(w) => Get(q, w)
    decreases |p|
  {
    if |p| > 0 {
      assert (p + q)[1..] == p[1..] + q;
      assert (p + q)[0] == p[0];
      match GetProp(v, p[0])
      case None =>
      case Some(w) => GetConcat(p[1..], q, w);
    } else {
      assert p + q == q;
    }
  }

  /** One node of the optics tree: its accessor and the nodes below it. */
  datatype Entry = Entry(self: Accessor, children: map<Key, Entry>)

  /** The optics tree of one level: a node per key. */
  type Tree = map<Key, Entry>

  /** The node reached by following `keys` down the tree. */
  function Find(tree: Tree, keys: seq<Key>): Option<Entry>
    decreases |keys|
  {
    if |keys| == 0 || keys[0] !in tree then None
    else if |keys| == 1 then Some(tree[keys[0]])
    else Find(tree[keys[0]].children, keys[1..])
  }

  /** The key `String(i)` under which tuple component `i` is stored. */
  function IndexKey(i: nat): Key
  {
    StrKey(IndexString(i))
  }

  /** What `go(ast, parent).optics` evaluates to. Declarations, literals,
      unions and lazy schemas give no nodes, and so do the base types
      (keywords, unique symbols, enums). Refinements and type aliases have
      no case in `go`, which then returns nothing, so reading the optics of
      one fails. */
  function OpticsOf(ast: AST, parent: Accessor): Result<Tree, string>
    decreases ast, 1, 0
  {
    match ast
    case Declaration(_, _, _) => Ok(map[])
    case Literal(_, _) => Ok(map[])
    case Union(_, _) => Ok(map[])
    case Lazy(_, _) => Ok(map[])
    case Keyword(_, _) => Ok(map[])
    case UniqueSymbol(_, _) => Ok(map[])
    case Enums(_, _) => Ok(map[])
    case Tuple(elements, _, _, _) => TupleOptics(ast, parent, |elements|)
    case Struct(fields, _, _, _) => StructOptics(ast, parent, |fields|)
    case Refinement(_, _, _, _) => Err("cannot read properties of undefined (reading 'optics')")
    case TypeAlias(_, _, _) => Err("cannot read properties of undefined (reading 'optics')")
  }

  /** Declarations, literals, unions, lazy schemas and the base types
      end the recursion: their tree has no nodes. */
  lemma LeavesHaveNoNodes(ast: AST, parent: Accessor)
    requires ast.Declaration? || ast.Literal? || ast.Union? || ast.Lazy? || ast.Keyword? || ast.UniqueSymbol? || ast.Enums?
    ensures OpticsOf(ast, parent) == Ok(map[])
    ensures forall keys :: Find(OpticsOf(ast, parent).value, keys).None?
  {
  }

  /** The tuple's tree after the first `n` turns of the loop. */
  function TupleOptics(ast: AST, parent: Accessor, n: nat): Result<Tree, string>
    requires ast.Tuple? && n <= |ast.elements|
    decreases ast, 0, n
  {
    if n == 0 then Ok(map[])
    else
      var acc := TupleOptics(ast, parent, n - 1);
      if acc.Err? then acc
      else
        var self := parent + [IndexKey(n - 1)];
        var value := OpticsOf(ast.elements[n - 1].ast, self);
        if value.Err? then value
        else Ok(acc.value[IndexKey(n - 1) := Entry(self, value.value)])
  }

  /** The struct's tree after the first `n` turns of the loop. */
  function StructOptics(ast: AST, parent: Accessor, n: nat): Result<Tree, string>
    requires ast.Struct? && n <= |ast.fields|
    decreases ast, 0, n
  {
    if n == 0 then Ok(map[])
    else
      var acc := StructOptics(ast, parent, n - 1);
      if acc.Err? then acc
      else
        var key := ast.fields[n - 1].key;
        var self := parent + [key];
        var value := OpticsOf(ast.fields[n - 1].value, self);
        if value.Err? then value
        else Ok(acc.value[key := Entry(self, value.value)])
  }

  /** Once a turn of the tuple loop fails, the loop fails with that error. */
  lemma {:induction false} TupleErrorPersists(ast: AST, parent: Accessor, i: nat, n: nat)
    requires ast.Tuple? && i <= n <= |ast.elements|
    requires TupleOptics(ast, parent, i).Err?
    ensures TupleOptics(ast, parent, n) == TupleOptics(ast, parent, i)
    decreases n
  {
    if i < n {
      TupleErrorPersists(ast, parent, i, n - 1);
    }
  }

  /** Once a turn of the struct loop fails, the loop fails with that error. */
  lemma {:induction false} StructErrorPersists(ast: AST, parent: Accessor, i: nat, n: nat)
    requires ast.Struct? && i <= n <= |ast.fields|
    requires StructOptics(ast, parent, i).Err?
    ensures StructOptics(ast, parent, n) == StructOptics(ast, parent, i)
    decreases n
  {
    if i < n {
      StructErrorPersists(ast, parent, i, n - 1);
    }
  }

  /** `go(ast, parent)`: fills a fresh dictionary, one component or field
      per turn of the loop, recursing into each with its own accessor. */
  method Go(ast: AST, parent: Accessor) returns (r: Result<Tree, string>)
    ensures r == OpticsOf(ast, parent)
    decreases ast
  {
    match ast
    case Tuple(elements, _, _, _) =>
      var optics: Tree := map[];
      var i := 0;
      while i < |elements|
        invariant 0 <= i <= |elements|
        invariant TupleOptics(ast, parent, i) == Ok(optics)
      {
        var self := parent + [IndexKey(i)];
        var value := Go(elements[i].ast, self);
        if value.Err? {
          TupleErrorPersists(ast, parent, i + 1, |elements|);
          return value;
        }
        optics := optics[IndexKey(i) := Entry(self, value.value)];
        i := i + 1;
      }
      return Ok(optics);
    case Struct(fields, _, _, _) =>
      var optics: Tree := map[];
      var i := 0;
      while i < |fields|
        invariant 0 <= i <= |fields|
        invariant StructOptics(ast, parent, i) == Ok(optics)
      {
        var self := parent + [fields[i].key];
        var value := Go(fields[i].value, self);
        if value.Err? {
          StructErrorPersists(ast, parent, i + 1, |fields|);
          return value;
        }
        optics := optics[fields[i].key := Entry(self, value.value)];
        i := i + 1;
      }
      return Ok(optics);
    case _ =>
      return OpticsOf(ast, parent);
  }

  /** `provideUnsafeOpticsFor(provider)(schema).optics`: `go` from the root,
      whose accessor is the identity. */
  method OpticsFor(schema: Schema) returns (r: Result<Tree, string>)
    ensures r == OpticsOf(schema.ast, [])
  {
    r := Go(schema.ast, []);
  }

  /** A tuple gets one node per component, under the key `String(i)`, whose
      accessor is the parent's composed with that key and whose sub-tree is
      the component's own, built from that accessor. */
  lemma {:induction false} TupleNodes(ast: AST, parent: Accessor, n: nat)
    requires ast.Tuple? && n <= |ast.elements| && TupleOptics(ast, parent, n).Ok?
    ensures var tree := TupleOptics(ast, parent, n).value;
            && (forall k :: k in tree <==> exists i :: 0 <= i < n && k == IndexKey(i))
            && (forall i :: 0 <= i < n ==>
                  var self := parent + [IndexKey(i)];
                  OpticsOf(ast.elements[i].ast, self).Ok? &&
                  tree[IndexKey(i)] == Entry(self, OpticsOf(ast.elements[i].ast, self).value))
    decreases n
  {
    if n > 0 {
      TupleNodes(ast, parent, n - 1);
      forall i | 0 <= i < n - 1
        ensures IndexKey(i) != IndexKey(n - 1)
      {
        if IndexKey(i) == IndexKey(n - 1) {
          IndexStringInjective(i, n - 1);
        }
      }
    }
  }

  /** A struct gets one node per declared key, whose accessor is the
      parent's composed with that key and whose sub-tree is built from that
      accessor for the last field declared under the key. */
  lemma StructNodes(ast: AST, parent: Accessor, n: nat)
    requires ast.Struct? && n <= |ast.fields| && StructOptics(ast, parent, n).Ok?
    ensures var tree := StructOptics(ast, parent, n).value;
            && (forall k :: k in tree <==> exists i :: 0 <= i < n && k == ast.fields[i].key)
            && (forall i :: 0 <= i < n && (forall j :: i < j < n ==> ast.fields[j].key != ast.fields[i].key) ==>
                  var self := parent + [ast.fields[i].key];
                  OpticsOf(ast.fields[i].value, self).Ok? &&
                  tree[ast.fields[i].key] == Entry(self, OpticsOf(ast.fields[i].value, self).value))
  {
    StructKeys(ast, parent, n);
    forall i | 0 <= i < n && (forall j :: i < j < n ==> ast.fields[j].key != ast.fields[i].key)
      ensures OpticsOf(ast.fields[i].value, parent + [ast.fields[i].key]).Ok?
      ensures StructOptics(ast, parent, n).value[ast.fields[i].key]
           == Entry(parent + [ast.fields[i].key], OpticsOf(ast.fields[i].value, parent + [ast.fields[i].key]).value)
    {
      StructEntry(ast, parent, n, i);
    }
  }

  lemma {:induction false} StructKeys(ast: AST, parent: Accessor, n: nat)
    requires ast.Struct? && n <= |ast.fields| && StructOptics(ast, parent, n).Ok?
    ensures forall k :: k in StructOptics(ast, parent, n).value <==> exists i :: 0 <= i < n && k == ast.fields[i].key
    decreases n
  {
    if n > 0 {
      assert StructOptics(ast, parent, n - 1).Ok?;
      StructKeys(ast, parent, n - 1);
    }
  }

  lemma {:induction false} StructEntry(ast: AST, parent: Accessor, n: nat, i: nat)
    requires ast.Struct? && i < n <= |ast.fields| && StructOptics(ast, parent, n).Ok?
    requires forall j :: i < j < n ==> ast.fields[j].key != ast.fields[i].key
    ensures ast.fields[i].key in StructOptics(ast, parent, n).value
    ensures OpticsOf(ast.fields[i].value, parent + [ast.fields[i].key]).Ok?
    ensures StructOptics(ast, parent, n).value[ast.fields[i].key]
         == Entry(parent + [ast.fields[i].key], OpticsOf(ast.fields[i].value, parent + [ast.fields[i].key]).value)
    decreases n
  {
    assert StructOptics(ast, parent, n - 1).Ok?;
    if i < n - 1 {
      StructEntry(ast, parent, n - 1, i);
    }
  }

  /** Every node of the tree derived under `parent` holds the accessor
      `parent` followed by the keys leading to it: a nested accessor is the
      root's key path followed by the child's key. */
  lemma {:induction false} NodeAccessors(ast: AST, parent: Accessor, keys: seq<Key>)
    requires OpticsOf(ast, parent).Ok?
    requires Find(OpticsOf(ast, parent).value, keys).Some?
    ensures Find(OpticsOf(ast, parent).value, keys).value.self == parent + keys
    decreases ast, |keys|
  {
    var tree := OpticsOf(ast, parent).value;
    var k := keys[0];
    var e := tree[k];
    var child: AST :| child < ast && e.self == parent + [k] && OpticsOf(child, e.self) == Ok(e.children) by {
      NodeOrigin(ast, parent, k);
    }
    if |keys| > 1 {
      NodeAccessors(child, e.self, keys[1..]);
      assert parent + [k] + keys[1..] == parent + keys;
    }
  }

  /** Every node of a derived tree was built, by `go`, from a part of the
      schema under the node's own accessor. */
  lemma NodeOrigin(ast: AST, parent: Accessor, k: Key)
    requires OpticsOf(ast, parent).Ok? && k in OpticsOf(ast, parent).value
    ensures exists child: AST :: child < ast && OpticsOf(ast, parent).value[k].self == parent + [k] &&
                                 OpticsOf(child, parent + [k]) == Ok(OpticsOf(ast, parent).value[k].children)
  {
    if ast.Tuple? {
      TupleNodes(ast, parent, |ast.elements|);
      var i :| 0 <= i < |ast.elements| && k == IndexKey(i);
      assert ast.elements[i].ast < ast;
    } else {
      var n := |ast.fields|;
      StructKeys(ast, parent, n);
      var i :| 0 <= i < n && k == ast.fields[i].key;
      var last := LastWithKey(ast.fields, k, i);
      StructEntry(ast, parent, n, last);
      assert ast.fields[last].value < ast;
    }
  }

  /** The last position, from `i` on, holding a field with key `k`. */
  lemma LastWithKey(fields: seq<Field>, k: Key, i: nat) returns (last: nat)
    requires i < |fields| && fields[i].key == k
    ensures i <= last < |fields| && fields[last].key == k
    ensures forall j :: last < j < |fields| ==> fields[j].key != k
    decreases |fields| - i
  {
    last := i;
    if exists j :: i < j < |fields| && fields[j].key == k {
      var j :| i < j < |fields| && fields[j].key == k;
      last := LastWithKey(fields, k, j);
    }
  }

  /** `struct({ c: number })` */
  lemma InnerStruct()
    ensures StructOf([(StrKey("c"), Make(Keyword(NumberKeyword, [])))]).ast
         == StructAst([Field(StrKey("c"), Keyword(NumberKeyword, []), false, true)], [])
  {
    var fields := [(StrKey("c"), Make(Keyword(NumberKeyword, [])))];
    assert StringKeyed(fields) == fields;
    assert SymbolKeyed(fields) == [];
    assert OwnProps(fields) == fields;
  }

  /** `struct({ a: string, b: inner })` */
  lemma OuterStruct(inner: Schema)
    requires !inner.isOptional
    ensures StructOf([(StrKey("a"), Make(Keyword(StringKeyword, []))), (StrKey("b"), inner)]).ast
         == StructAst([Field(StrKey("a"), Keyword(StringKeyword, []), false, true), Field(StrKey("b"), inner.ast, false, true)], [])
  {
    var fields := [(StrKey("a"), Make(Keyword(StringKeyword, []))), (StrKey("b"), inner)];
    assert StringKeyed(fields[1..]) == fields[1..];
    assert StringKeyed(fields) == fields;
    assert SymbolKeyed(fields[1..]) == [];
    assert SymbolKeyed(fields) == [];
    assert OwnProps(fields) == fields;
  }

  /** The optics of `struct({ c: number })` under the accessor `p`. */
  lemma InnerOptics(p: Accessor)
    ensures OpticsOf(StructAst([Field(StrKey("c"), Keyword(NumberKeyword, []), false, true)], []), p)
         == Ok(map[StrKey("c") := Entry(p + [StrKey("c")], map[])])
  {
    var ast := StructAst([Field(StrKey("c"), Keyword(NumberKeyword, []), false, true)], []);
    assert StructOptics(ast, p, 0) == Ok(map[]);
    assert OpticsOf(Keyword(NumberKeyword, []), p + [StrKey("c")]) == Ok(map[]);
    assert StructOptics(ast, p, 1) == Ok(map[StrKey("c") := Entry(p + [StrKey("c")], map[])]);
  }

  /** The optics tree of `struct({ a: string, b: struct({ c: number }) })`. */
  lemma StructExampleTree()
    ensures var inner := StructOf([(StrKey("c"), Make(Keyword(NumberKeyword, [])))]);
            var schema := StructOf([(StrKey("a"), Make(Keyword(StringKeyword, []))), (StrKey("b"), inner)]);
            OpticsOf(schema.ast, []) == Ok(map[StrKey("a") := Entry([StrKey("a")], map[]),
                                               StrKey("b") := Entry([StrKey("b")], map[StrKey("c") := Entry([StrKey("b"), StrKey("c")], map[])])])
  {
    InnerStruct();
    var inner := StructOf([(StrKey("c"), Make(Keyword(NumberKeyword, [])))]);
    OuterStruct(inner);
    var ast := StructAst([Field(StrKey("a"), Keyword(StringKeyword, []), false, true), Field(StrKey("b"), inner.ast, false, true)], []);
    InnerOptics([StrKey("b")]);
    var innerTree := map[StrKey("c") := Entry([StrKey("b"), StrKey("c")], map[])];
    assert StructOptics(ast, [], 0) == Ok(map[]);
    assert [] + [StrKey("a")] == [StrKey("a")] && [] + [StrKey("b")] == [StrKey("b")];
    assert OpticsOf(Keyword(StringKeyword, []), [StrKey("a")]) == Ok(map[]);
    assert StructOptics(ast, [], 1) == Ok(map[StrKey("a") := Entry([StrKey("a")], map[])]);
    assert [StrKey("b")] + [StrKey("c")] == [StrKey("b"), StrKey("c")];
    assert OpticsOf(inner.ast, [StrKey("b")]) == Ok(innerTree);
  }

  /** The optics tree of `tuple(string, struct({ c: number }))`. */
  lemma TupleExampleTree()
    ensures var inner := StructOf([(StrKey("c"), Make(Keyword(NumberKeyword, [])))]);
            var schema := TupleOf([Make(Keyword(StringKeyword, [])), inner]);
            OpticsOf(schema.ast, []) == Ok(map[StrKey("0") := Entry([StrKey("0")], map[]),
                                               StrKey("1") := Entry([StrKey("1")], map[StrKey("c") := Entry([StrKey("1"), StrKey("c")], map[])])])
  {
    InnerStruct();
    var inner := StructOf([(StrKey("c"), Make(Keyword(NumberKeyword, [])))]);
    var schema := TupleOf([Make(Keyword(StringKeyword, [])), inner]);
    var ast := schema.ast;
    assert ast.elements == [Element(Keyword(StringKeyword, []), false), Element(inner.ast, false)];
    assert IndexKey(0) == StrKey("0") && IndexKey(1) == StrKey("1");
    InnerOptics([StrKey("1")]);
    var innerTree := map[StrKey("c") := Entry([StrKey("1"), StrKey("c")], map[])];
    assert TupleOptics(ast, [], 0) == Ok(map[]);
    assert [] + [StrKey("0")] == [StrKey("0")] && [] + [StrKey("1")] == [StrKey("1")];
    assert OpticsOf(Keyword(StringKeyword, []), [StrKey("0")]) == Ok(map[]);
    assert TupleOptics(ast, [], 1) == Ok(map[StrKey("0") := Entry([StrKey("0")], map[])]);
    assert [StrKey("1")] + [StrKey("c")] == [StrKey("1"), StrKey("c")];
    assert OpticsOf(inner.ast, [StrKey("1")]) == Ok(innerTree);
  }

  /** The two-level tree both test schemas derive: a leaf under `k1`, and a
      node under `k2` with one leaf `k3` below it. */
  function TwoLevelTree(k1: Key, k2: Key, k3: Key): Tree
  {
    map[k1 := Entry([k1], map[]), k2 := Entry([k2], map[k3 := Entry([k2, k3], map[])])]
  }

  /** In the two-level tree, the accessors under `k1`, `k2` and `k2.k3` read
      what the key steps read from `v`. */
  lemma TwoLevelReads(k1: Key, k2: Key, k3: Key, v: Value, x1: Value, x2: Value, x3: Value)
    requires k1 != k2
    requires GetProp(v, k1) == Some(x1) && GetProp(v, k2) == Some(x2) && GetProp(x2, k3) == Some(x3)
    ensures var tree := TwoLevelTree(k1, k2, k3);
            && Find(tree, [k1]).Some? && Get(Find(tree, [k1]).value.self, v) == Some(x1)
            && Find(tree, [k2]).Some? && Get(Find(tree, [k2]).value.self, v) == Some(x2)
            && Find(tree, [k2, k3]).Some? && Get(Find(tree, [k2, k3]).value.self, v) == Some(x3)
  {
    var tree := TwoLevelTree(k1, k2, k3);
    assert Find(tree, [k1]) == Some(Entry([k1], map[]));
    assert Find(tree, [k2]) == Some(tree[k2]);
    assert [k2, k3][1..] == [k3];
    assert Find(tree, [k2, k3]) == Find(tree[k2].children, [k3]) == Some(Entry([k2, k3], map[]));
    assert Get([k1], v) == Get([], x1);
    assert Get([k2], v) == Get([], x2);
    assert Get([k2, k3], v) == Get([k3], x2) == Get([], x3);
  }

  /** The example of the struct test: the optics of
      `struct({ a: string, b: struct({ c: number }) })` read "a", `{ c: 1 }`
      and 1 from `{ a: "a", b: { c: 1 } }`. */
  lemma StructExample()
    ensures var inner := StructOf([(StrKey("c"), Make(Keyword(NumberKeyword, [])))]);
            var schema := StructOf([(StrKey("a"), Make(Keyword(StringKeyword, []))), (StrKey("b"), inner)]);
            var v := Obj([(StrKey("a"), Str("a")), (StrKey("b"), Obj([(StrKey("c"), Num(Finite(1.0)))]))]);
            var tree := OpticsOf(schema.ast, []);
            && tree.Ok?
            && Find(tree.value, [StrKey("a")]).Some?
            && Get(Find(tree.value, [StrKey("a")]).value.self, v) == Some(Str("a"))
            && Find(tree.value, [StrKey("b")]).Some?
            && Get(Find(tree.value, [StrKey("b")]).value.self, v) == Some(Obj([(StrKey("c"), Num(Finite(1.0)))]))
            && Find(tree.value, [StrKey("b"), StrKey("c")]).Some?
            && Get(Find(tree.value, [StrKey("b"), StrKey("c")]).value.self, v) == Some(Num(Finite(1.0)))
  {
    StructExampleTree();
    var v := Obj([(StrKey("a"), Str("a")), (StrKey("b"), Obj([(StrKey("c"), Num(Finite(1.0)))]))]);
    var w := Obj([(StrKey("c"), Num(Finite(1.0)))]);
    StructExampleValue(v, w);
    TwoLevelReads(StrKey("a"), StrKey("b"), StrKey("c"), v, Str("a"), w, Num(Finite(1.0)));
  }

  lemma StructExampleValue(v: Value, w: Value)
    requires v == Obj([(StrKey("a"), Str("a")), (StrKey("b"), w)])
    requires w == Obj([(StrKey("c"), Num(Finite(1.0)))])
    ensures GetProp(v, StrKey("a")) == Some(Str("a")) && GetProp(v, StrKey("b")) == Some(w)
    ensures GetProp(w, StrKey("c")) == Some(Num(Finite(1.0)))
  {
    assert GetProp(v, StrKey("a")) == Some(Str("a"));
    assert StrKey("a") != StrKey("b");
    assert Lookup(v.props, StrKey("b")) == Some(w);
  }

  /** The example of the tuple test: the optics of
      `tuple(string, struct({ c: number }))` read "a", `{ c: 1 }` and 1
      from `["a", { c: 1 }]`. */
  lemma TupleExample()
    ensures var inner := StructOf([(StrKey("c"), Make(Keyword(NumberKeyword, [])))]);
            var schema := TupleOf([Make(Keyword(StringKeyword, [])), inner]);
            var v := Arr([Str("a"), Obj([(StrKey("c"), Num(Finite(1.0)))])]);
            var tree := OpticsOf(schema.ast, []);
            && tree.Ok?
            && Find(tree.value, [StrKey("0")]).Some?
            && Get(Find(tree.value, [StrKey("0")]).value.self, v) == Some(Str("a"))
            && Find(tree.value, [StrKey("1")]).Some?
            && Get(Find(tree.value, [StrKey("1")]).value.self, v) == Some(Obj([(StrKey("c"), Num(Finite(1.0)))]))
            && Find(tree.value, [StrKey("1"), StrKey("c")]).Some?
            && Get(Find(tree.value, [StrKey("1"), StrKey("c")]).value.self, v) == Some(Num(Finite(1.0)))
  {
    TupleExampleTree();
    var v := Arr([Str("a"), Obj([(StrKey("c"), Num(Finite(1.0)))])]);
    var w := Obj([(StrKey("c"), Num(Finite(1.0)))]);
    assert KeyIndex(StrKey("0")) == Some(0) && KeyIndex(StrKey("1")) == Some(1);
    assert GetProp(v, StrKey("0")) == Some(Str("a"));
    assert GetProp(v, StrKey("1")) == Some(w);
    assert GetProp(w, StrKey("c")) == Some(Num(Finite(1.0)));
    TwoLevelReads(StrKey("0"), StrKey("1"), StrKey("c"), v, Str("a"), w, Num(Finite(1.0)));
  }

  // ---------------------------------------------
  // The tree as the source spreads it
  // ---------------------------------------------

  /** A property of the object the source builds: a lens, or a nested
      object of further properties. */
  datatype Slot = Lens(path: Accessor) | Record(fields: map<Key, Slot>)

  const SelfKey: Key := StrKey("self")

  /** The tree `go` builds as written: each node is the object
      `{ self, ...value }`, so the accessor and the child's own keys share
      one object, and a child key named "self" replaces the accessor. */
  function SpreadOpticsOf(ast: AST, parent: Accessor): Result<map<Key, Slot>, string>
    decreases ast, 1, 0
  {
    match ast
    case Tuple(elements, _, _, _) => SpreadTupleOptics(ast, parent, |elements|)
    case Struct(fields, _, _, _) => SpreadStructOptics(ast, parent, |fields|)
    case Refinement(_, _, _, _) => Err("cannot read properties of undefined (reading 'optics')")
    case TypeAlias(_, _, _) => Err("cannot read properties of undefined (reading 'optics')")
    case _ => Ok(map[])
  }

  function SpreadTupleOptics(ast: AST, parent: Accessor, n: nat): Result<map<Key, Slot>, string>
    requires ast.Tuple? && n <= |ast.elements|
    decreases ast, 0, n
  {
    if n == 0 then Ok(map[])
    else
      var acc := SpreadTupleOptics(ast, parent, n - 1);
      if acc.Err? then acc
      else
        var self := parent + [IndexKey(n - 1)];
        var value := SpreadOpticsOf(ast.elements[n - 1].ast, self);
        if value.Err? then value
        else Ok(acc.value[IndexKey(n - 1) := Record(map[SelfKey := Lens(self)] + value.value)])
  }

  function SpreadStructOptics(ast: AST, parent: Accessor, n: nat): Result<map<Key, Slot>, string>
    requires ast.Struct? && n <= |ast.fields|
    decreases ast, 0, n
  {
    if n == 0 then Ok(map[])
    else
      var acc := SpreadStructOptics(ast, parent, n - 1);
      if acc.Err? then acc
      else
        var key := ast.fields[n - 1].key;
        var self := parent + [key];
        var value := SpreadOpticsOf(ast.fields[n - 1].value, self);
        if value.Err? then value
        else Ok(acc.value[key := Record(map[SelfKey := Lens(self)] + value.value)])
  }

  /** `struct({ a: struct({ self: literal("x") }) })` */
  function SelfFieldExample(): AST
  {
    StructAst([Field(StrKey("a"), StructAst([Field(SelfKey, LiteralAst(Str("x")), false, true)], []), false, true)], [])
  }

  /** As written, the node for `a` in the example holds under "self" the
      node of the nested field, not the lens that focuses on `a`: `optics.a.self`
      reads `a.self` instead of `a`. */
  lemma SelfFieldShadowsAccessor()
    ensures var tree := SpreadOpticsOf(SelfFieldExample(), []);
            && tree.Ok? && StrKey("a") in tree.value && tree.value[StrKey("a")].Record?
            && SelfKey in tree.value[StrKey("a")].fields
            && tree.value[StrKey("a")].fields[SelfKey] != Lens([StrKey("a")])
            && tree.value[StrKey("a")].fields[SelfKey] == Record(map[SelfKey := Lens([StrKey("a"), SelfKey])])
  {
    var inner := StructAst([Field(SelfKey, LiteralAst(Str("x")), false, true)], []);
    assert [] + [StrKey("a")] == [StrKey("a")];
    assert [StrKey("a")] + [SelfKey] == [StrKey("a"), SelfKey];
    assert SpreadStructOptics(inner, [StrKey("a")], 0) == Ok(map[]);
    assert SpreadOpticsOf(LiteralAst(Str("x")), [StrKey("a"), SelfKey]) == Ok(map[]);
    var innerTree := map[SelfKey := Record(map[SelfKey := Lens([StrKey("a"), SelfKey])])];
    assert map[SelfKey := Lens([StrKey("a"), SelfKey])] + map[] == map[SelfKey := Lens([StrKey("a"), SelfKey])];
    assert SpreadStructOptics(inner, [StrKey("a")], 1) == Ok(innerTree);
    assert SpreadOpticsOf(inner, [StrKey("a")]) == Ok(innerTree);
    assert SpreadStructOptics(SelfFieldExample(), [], 0) == Ok(map[]);
    var slot := Record(map[SelfKey := Lens([StrKey("a")])] + innerTree);
    assert SpreadStructOptics(SelfFieldExample(), [], 1) == Ok(map[StrKey("a") := slot]);
    assert slot.fields[SelfKey] == innerTree[SelfKey];
  }

  /** With the accessor kept apart from the children, the same example keeps
      both: the node for `a` focuses on `a`, and the nested field named
      "self" is a child of it focusing on `a.self`. */
  lemma SelfFieldKeepsAccessor()
    ensures var tree := OpticsOf(SelfFieldExample(), []);
            && tree.Ok?
            && Find(tree.value, [StrKey("a")]).Some?
            && Find(tree.value, [StrKey("a")]).value.self == [StrKey("a")]
            && Find(tree.value, [StrKey("a"), SelfKey]).Some?
            && Find(tree.value, [StrKey("a"), SelfKey]).value.self == [StrKey("a"), SelfKey]
  {
    var inner := StructAst([Field(SelfKey, LiteralAst(Str("x")), false, true)], []);
    assert [] + [StrKey("a")] == [StrKey("a")];
    assert [StrKey("a")] + [SelfKey] == [StrKey("a"), SelfKey];
    assert StructOptics(inner, [StrKey("a")], 0) == Ok(map[]);
    assert OpticsOf(LiteralAst(Str("x")), [StrKey("a"), SelfKey]) == Ok(map[]);
    var innerTree := map[SelfKey := Entry([StrKey("a"), SelfKey], map[])];
    assert StructOptics(inner, [StrKey("a")], 1) == Ok(innerTree);
    assert OpticsOf(inner, [StrKey("a")]) == Ok(innerTree);
    assert StructOptics(SelfFieldExample(), [], 0) == Ok(map[]);
    var tree := map[StrKey("a") := Entry([StrKey("a")], innerTree)];
    assert StructOptics(SelfFieldExample(), [], 1) == Ok(tree);
    assert Find(tree, [StrKey("a"), SelfKey]) == Find(innerTree, [SelfKey]);
  }

  // ---------------------------------------------
  // How the tree as written relates to the corrected one
  // ---------------------------------------------

  /** A node of the corrected tree as the source spreads it: the object
      `{ self, ...value }`, with the accessor under "self" and the
      children's own keys over it. */
  function SpreadNode(e: Entry): Slot
  {
    Record(map[SelfKey := Lens(e.self)] + map k | k in e.children :: SpreadNode(e.children[k]))
  }

  /** Every node of a corrected tree, spread. */
  function Spread(tree: Tree): map<Key, Slot>
  {
    map k | k in tree :: SpreadNode(tree[k])
  }

  lemma SpreadUpdate(tree: Tree, k: Key, e: Entry)
    ensures Spread(tree[k := e]) == Spread(tree)[k := Record(map[SelfKey := Lens(e.self)] + Spread(e.children))]
  {
    assert SpreadNode(e) == Record(map[SelfKey := Lens(e.self)] + Spread(e.children));
  }

  /** The tree `go` builds as written is the corrected tree with every node
      spread, and both fail alike: the two differ only in how a node holds
      its accessor. */
  lemma {:induction false} SpreadIsCorrectedSpread(ast: AST, parent: Accessor)
    ensures OpticsOf(ast, parent).Ok? ==> SpreadOpticsOf(ast, parent) == Ok(Spread(OpticsOf(ast, parent).value))
    ensures OpticsOf(ast, parent).Err? ==> SpreadOpticsOf(ast, parent) == Err(OpticsOf(ast, parent).error)
    decreases ast, 1, 0
  {
    match ast
    case Tuple(elements, _, _, _) =>
      SpreadTupleAgrees(ast, parent, |elements|);
    case Struct(fields, _, _, _) =>
      SpreadStructAgrees(ast, parent, |fields|);
    case _ =>
      assert Spread(map[]) == map[];
  }

  lemma {:induction false} SpreadTupleAgrees(ast: AST, parent: Accessor, n: nat)
    requires ast.Tuple? && n <= |ast.elements|
    ensures TupleOptics(ast, parent, n).Ok? ==> SpreadTupleOptics(ast, parent, n) == Ok(Spread(TupleOptics(ast, parent, n).value))
    ensures TupleOptics(ast, parent, n).Err? ==> SpreadTupleOptics(ast, parent, n) == Err(TupleOptics(ast, parent, n).error)
    decreases ast, 0, n
  {
    if n == 0 {
      assert Spread(map[]) == map[];
    } else {
      SpreadTupleAgrees(ast, parent, n - 1);
      var acc := TupleOptics(ast, parent, n - 1);
      if acc.Ok? {
        var self := parent + [IndexKey(n - 1)];
        SpreadIsCorrectedSpread(ast.elements[n - 1].ast, self);
        var value := OpticsOf(ast.elements[n - 1].ast, self);
        if value.Ok? {
          SpreadUpdate(acc.value, IndexKey(n - 1), Entry(self, value.value));
        }
      }
    }
  }

  lemma {:induction false} SpreadStructAgrees(ast: AST, parent: Accessor, n: nat)
    requires ast.Struct? && n <= |ast.fields|
    ensures StructOptics(ast, parent, n).Ok? ==> SpreadStructOptics(ast, parent, n) == Ok(Spread(StructOptics(ast, parent, n).value))
    ensures StructOptics(ast, parent, n).Err? ==> SpreadStructOptics(ast, parent, n) == Err(StructOptics(ast, parent, n).error)
    decreases ast, 0, n
  {
    if n == 0 {
      assert Spread(map[]) == map[];
    } else {
      SpreadStructAgrees(ast, parent, n - 1);
      var acc := StructOptics(ast, parent, n - 1);
      if acc.Ok? {
        var self := parent + [ast.fields[n - 1].key];
        SpreadIsCorrectedSpread(ast.fields[n - 1].value, self);
        var value := OpticsOf(ast.fields[n - 1].value, self);
        if value.Ok? {
          SpreadUpdate(acc.value, ast.fields[n - 1].key, Entry(self, value.value));
        }
      }
    }
  }

  /** `optics.k1. ... .kn.self` on the tree as written: the lens found under
      "self" after following the keys, if there is one. */
  function SpreadLens(slots: map<Key, Slot>, keys: seq<Key>): Option<Accessor>
    decreases |keys|
  {
    if |keys| == 0 || keys[0] !in slots || !slots[keys[0]].Record? then None
    else
      var fields := slots[keys[0]].fields;
      if |keys| == 1 then
        if SelfKey in fields && fields[SelfKey].Lens? then Some(fields[SelfKey].path) else None
      else SpreadLens(fields, keys[1..])
  }

  /** No node at or below `e` has a child keyed "self". */
  predicate SelfFree(e: Entry)
  {
    forall k :: k in e.children ==> k != SelfKey && SelfFree(e.children[k])
  }

  /** Where no node has a child keyed "self", reading `.self` after a key
      path of the spread tree gives the accessor of the node the corrected
      tree holds under that path. */
  lemma {:induction false} SpreadKeepsAccessors(tree: Tree, keys: seq<Key>)
    requires forall k :: k in tree ==> SelfFree(tree[k])
    requires Find(tree, keys).Some?
    ensures SpreadLens(Spread(tree), keys) == Some(Find(tree, keys).value.self)
    decreases |keys|
  {
    var e := tree[keys[0]];
    SpreadAt(tree, keys[0]);
    var fields := map[SelfKey := Lens(e.self)] + Spread(e.children);
    if |keys| == 1 {
      assert SelfKey !in Spread(e.children);
    } else {
      var rest := keys[1..];
      assert Find(tree, keys) == Find(e.children, rest);
      assert rest[0] in e.children;
      SpreadKeepsAccessors(e.children, rest);
      SpreadLensFrom(fields, Spread(e.children), rest);
    }
  }

  lemma SpreadAt(tree: Tree, k: Key)
    requires k in tree
    ensures k in Spread(tree) && Spread(tree)[k] == Record(map[SelfKey := Lens(tree[k].self)] + Spread(tree[k].children))
  {
    SpreadUpdate(tree, k, tree[k]);
    assert tree[k := tree[k]] == tree;
  }

  lemma SpreadLensFrom(slots: map<Key, Slot>, same: map<Key, Slot>, keys: seq<Key>)
    requires |keys| > 0 && keys[0] in same && keys[0] in slots && slots[keys[0]] == same[keys[0]]
    ensures SpreadLens(slots, keys) == SpreadLens(same, keys)
  {
  }

  /** A schema none of whose struct fields, at any depth, is named "self". */
  predicate NoSelfField(ast: AST)
    decreases ast
  {
    match ast
    case Tuple(elements, _, _, _) => forall i :: 0 <= i < |elements| ==> NoSelfField(elements[i].ast)
    case Struct(fields, _, _, _) => forall i :: 0 <= i < |fields| ==> fields[i].key != SelfKey && NoSelfField(fields[i].value)
    case _ => true
  }

  /** Without fields named "self" no node of the corrected tree has a child
      keyed "self": tuple keys are digit strings. */
  lemma {:induction false} TreeSelfFree(ast: AST, parent: Accessor)
    requires NoSelfField(ast) && OpticsOf(ast, parent).Ok?
    ensures forall k :: k in OpticsOf(ast, parent).value ==> k != SelfKey && SelfFree(OpticsOf(ast, parent).value[k])
    decreases ast
  {
    var tree := OpticsOf(ast, parent).value;
    forall k | k in tree ensures k != SelfKey && SelfFree(tree[k]) {
      if ast.Tuple? {
        TupleNodes(ast, parent, |ast.elements|);
        var i :| 0 <= i < |ast.elements| && k == IndexKey(i);
        IndexStringShape(i);
        assert !IsDigit(SelfKey.name[0]);
        assert ast.elements[i].ast < ast;
        TreeSelfFree(ast.elements[i].ast, parent + [k]);
      } else {
        var n := |ast.fields|;
        StructKeys(ast, parent, n);
        var i :| 0 <= i < n && k == ast.fields[i].key;
        var last := LastWithKey(ast.fields, k, i);
        StructEntry(ast, parent, n, last);
        assert ast.fields[last].value < ast;
        TreeSelfFree(ast.fields[last].value, parent + [k]);
      }
    }
  }

  /** On a schema with no field named "self", the tree as written keeps
      every accessor: following any key path of the corrected tree and
      reading `self` gives the root accessor followed by that path. So the
      shadowing of `SelfFieldShadowsAccessor` is the only way the two trees
      differ. */
  lemma SpreadAgreesWithoutSelfFields(ast: AST, parent: Accessor, keys: seq<Key>)
    requires NoSelfField(ast) && OpticsOf(ast, parent).Ok?
    requires Find(OpticsOf(ast, parent).value, keys).Some?
    ensures SpreadOpticsOf(ast, parent).Ok?
    ensures SpreadLens(SpreadOpticsOf(ast, parent).value, keys) == Some(parent + keys)
  {
    SpreadIsCorrectedSpread(ast, parent);
    TreeSelfFree(ast, parent);
    SpreadKeepsAccessors(OpticsOf(ast, parent).value, keys);
    NodeAccessors(ast, parent, keys);
  }
}
