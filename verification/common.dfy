/** src/internal/common.ts: the graded decode result and its constructors,
    the in-place append, the JSON-shape predicates, annotation lookup,
    own-key enumeration, `memoize`, and the schema constructors for refinement,
    literal, union, optional, struct, tuple and array. */
module Common {
  import opened Wrappers
  import opened JsValues
  import opened Ast

  // ---------------------------------------------
  // Decoder results
  // ---------------------------------------------

  /** A decode error. Only the kind the core raises is modelled. */
  datatype DecodeError = NotType(expected: string, actual: Value)

  /** `These<E, A>`: errors only (Left), a value only (Right), or both. */
  datatype These<+E, +A> = Left(left: E) | Right(right: A) | Both(left: E, right: A)

  /** The graded decode outcome: failure, success, or warning. */
  type Validated<A> = These<seq<DecodeError>, A>

  /** Every error list a result carries is non-empty. */
  ghost predicate WellFormed<A>(r: Validated<A>)
  {
    !r.Right? ==> |r.left| > 0
  }

  /** The errors a result reports (none for a success). */
  function Errors<A>(r: Validated<A>): seq<DecodeError>
  {
    if r.Right? then [] else r.left
  }

  /** The value a result carries (none for a failure). */
  function ValueOf<A>(r: Validated<A>): Option<A>
  {
    if r.Left? then None else Some(r.right)
  }

  /** `success(a)` */
  function Success<A>(a: A): (r: Validated<A>)
    ensures WellFormed(r)
    ensures Errors(r) == [] && ValueOf(r) == Some(a)
  {
    Right(a)
  }

  /** `failure(e)` */
  function Failure<A>(e: DecodeError): (r: Validated<A>)
    ensures WellFormed(r)
    ensures Errors(r) == [e] && ValueOf(r) == None
  {
    Left([e])
  }

  /** `failures(es)`: the caller supplies a non-empty list. */
  function Failures<A>(es: seq<DecodeError>): (r: Validated<A>)
    requires |es| > 0
    ensures WellFormed(r)
    ensures Errors(r) == es && ValueOf(r) == None
  {
    Left(es)
  }

  /** `warning(e, a)` */
  function Warning<A>(e: DecodeError, a: A): (r: Validated<A>)
    ensures WellFormed(r)
    ensures Errors(r) == [e] && ValueOf(r) == Some(a)
  {
    Both([e], a)
  }

  /** `warnings(es, a)`: the caller supplies a non-empty list. */
  function Warnings<A>(es: seq<DecodeError>, a: A): (r: Validated<A>)
    requires |es| > 0
    ensures WellFormed(r)
    ensures Errors(r) == es && ValueOf(r) == Some(a)
  {
    Both(es, a)
  }

  /** `isSuccess` */
  predicate IsSuccess<A>(r: Validated<A>)
  {
    r.Right?
  }

  /** `isFailure` */
  predicate IsFailure<A>(r: Validated<A>)
  {
    r.Left?
  }

  /** `isWarning` */
  predicate IsWarning<A>(r: Validated<A>)
  {
    r.Both?
  }

  /** Every result is in exactly one of the three states, and the state is
      read off what the result carries: a success has no errors, a failure
      has no value, a warning has both. */
  lemma Classification<A>(r: Validated<A>)
    requires WellFormed(r)
    ensures IsSuccess(r) || IsFailure(r) || IsWarning(r)
    ensures !(IsSuccess(r) && IsFailure(r)) && !(IsSuccess(r) && IsWarning(r)) && !(IsFailure(r) && IsWarning(r))
    ensures IsSuccess(r) <==> Errors(r) == []
    ensures IsFailure(r) <==> ValueOf(r) == None
    ensures IsWarning(r) <==> Errors(r) != [] && ValueOf(r) != None
  {
  }

  // ---------------------------------------------
  // In-place append
  // ---------------------------------------------

  /** A mutable JavaScript array. */
  class MutableArray<A> {
    var elements: seq<A>

    constructor (elements: seq<A>)
      ensures this.elements == elements
    {
      this.elements := elements;
    }
  }

  /** `mutableAppend(self, a)`: pushes `a` onto `self` and returns `self`
      itself, which is now non-empty. */
  method MutableAppend<A>(self: MutableArray<A>, a: A) returns (r: MutableArray<A>)
    modifies self
    ensures r == self
    ensures self.elements == old(self.elements) + [a]
    ensures |r.elements| > 0 && r.elements[|r.elements| - 1] == a
  {
    self.elements := self.elements + [a];
    r := self;
  }

  // ---------------------------------------------
  // Refinements
  // ---------------------------------------------

  /** `isUnknownObject(u)` */
  function IsUnknownObject(u: Value): (b: bool)
    ensures b <==> u.Obj?
  {
    TypeOf(u) == "object" && u != Null && !IsArray(u)
  }

  /** `isJsonArray(u)` */
  predicate IsJsonArray(u: Value)
    decreases u, 0
  {
    IsArray(u) && forall i :: 0 <= i < |u.items| ==> IsJson(u.items[i])
  }

  /** `isJsonObject(u)`: an object whose every value under a key that
      `Object.keys` enumerates (a string key) is Json. */
  predicate IsJsonObject(u: Value)
    decreases u, 0
  {
    IsUnknownObject(u) && forall i :: 0 <= i < |u.props| && u.props[i].0.StrKey? ==> IsJson(u.props[i].1)
  }

  /** `isJson(u)` */
  predicate IsJson(u: Value)
    decreases u, 1
  {
    || u == Null
    || TypeOf(u) == "string"
    || (TypeOf(u) == "number" && !u.n.NaN? && u.n.Finite?)
    || TypeOf(u) == "boolean"
    || IsJsonArray(u)
    || IsJsonObject(u)
  }

  /** What `isJson` accepts, kind by kind. */
  lemma IsJsonKinds(u: Value)
    ensures u.Null? || u.Str? || u.Bool? ==> IsJson(u)
    ensures u.Num? ==> (IsJson(u) <==> u.n.Finite?)
    ensures u.Arr? ==> (IsJson(u) <==> forall i :: 0 <= i < |u.items| ==> IsJson(u.items[i]))
    ensures u.Obj? ==> (IsJson(u) <==> forall i :: 0 <= i < |u.props| && u.props[i].0.StrKey? ==> IsJson(u.props[i].1))
    ensures u.Undefined? || u.BigInt? || u.Sym? || u.Func? ==> !IsJson(u)
  {
  }

  // ---------------------------------------------
  // Schema APIs
  // ---------------------------------------------

  /** `refinement(from, predicate, meta, annotations)` */
  function RefinementOf(from: Schema, check: Check, meta: Props<Value>, annotations: Annotations): Schema
  {
    Make(Refinement(from.ast, check, meta, annotations))
  }

  /** `union(...members)` */
  function UnionOf(members: seq<Schema>): Schema
  {
    Make(UnionAst(seq(|members|, i requires 0 <= i < |members| => members[i].ast)))
  }

  /** `literal(...literals)`: the union of one literal node per value. */
  function LiteralOf(literals: seq<Value>): Schema
  {
    UnionOf(seq(|literals|, i requires 0 <= i < |literals| => Make(LiteralAst(literals[i]))))
  }

  /** `optional(schema)`: the same AST, carrying the optional marker. */
  function Optional(schema: Schema): (r: Schema)
    ensures r.ast == schema.ast && r.isOptional
  {
    Schema(schema.ast, true)
  }

  /** The keys of the string- and symbol-keyed properties are, together,
      the keys of the whole object. */
  lemma {:induction false} KeyedPartition<V>(o: Props<V>)
    ensures multiset(Keys(StringKeyed(o))) + multiset(Keys(SymbolKeyed(o))) == multiset(Keys(o))
  {
    if |o| > 0 {
      var p, rest := o[0], o[1..];
      KeyedPartition(rest);
      KeysCons(p, rest);
      assert o == [p] + rest;
      if p.0.StrKey? {
        assert StringKeyed(o) == [p] + StringKeyed(rest);
        assert SymbolKeyed(o) == SymbolKeyed(rest);
        KeysCons(p, StringKeyed(rest));
      } else {
        assert SymbolKeyed(o) == [p] + SymbolKeyed(rest);
        assert StringKeyed(o) == StringKeyed(rest);
        KeysCons(p, SymbolKeyed(rest));
      }
    }
  }

  lemma KeysCons<V>(p: (Key, V), rest: Props<V>)
    ensures Keys([p] + rest) == [p.0] + Keys(rest)
  {
  }

  /** `xs` is `ys` with some elements left out and the rest kept in order. */
  predicate Subsequence<T(==)>(xs: seq<T>, ys: seq<T>)
    decreases |ys|
  {
    |xs| == 0 || (|ys| > 0 && ((xs[0] == ys[0] && Subsequence(xs[1..], ys[1..])) || Subsequence(xs, ys[1..])))
  }

  /** The string-keyed and the symbol-keyed properties each keep the
      object's enumeration order. */
  lemma {:induction false} KeyedInOrder<V>(o: Props<V>)
    ensures Subsequence(Keys(StringKeyed(o)), Keys(o))
    ensures Subsequence(Keys(SymbolKeyed(o)), Keys(o))
  {
    if |o| > 0 {
      var p, rest := o[0], o[1..];
      KeyedInOrder(rest);
      KeysCons(p, rest);
      assert o == [p] + rest;
      assert Keys(o)[1..] == Keys(rest);
      if p.0.StrKey? {
        KeysCons(p, StringKeyed(rest));
        assert Keys(StringKeyed(o)) == [p.0] + Keys(StringKeyed(rest));
        assert Keys(StringKeyed(o))[1..] == Keys(StringKeyed(rest));
      } else {
        KeysCons(p, SymbolKeyed(rest));
        assert Keys(SymbolKeyed(o)) == [p.0] + Keys(SymbolKeyed(rest));
        assert Keys(SymbolKeyed(o))[1..] == Keys(SymbolKeyed(rest));
      }
    }
  }

  /** `ownKeys(o)`: every own key exactly once, the string keys first and
      then the symbol keys, each group in enumeration order. */
  function OwnKeys<V>(o: Props<V>): (ks: seq<Key>)
    ensures multiset(ks) == multiset(Keys(o))
    ensures forall i, j :: 0 <= i < j < |ks| && ks[i].SymKey? ==> ks[j].SymKey?
    ensures |ks| == |o|
    ensures exists n :: 0 <= n <= |ks| && (forall i :: 0 <= i < n ==> ks[i].StrKey?) &&
              (forall i :: n <= i < |ks| ==> ks[i].SymKey?) &&
              Subsequence(ks[..n], Keys(o)) && Subsequence(ks[n..], Keys(o))
  {
    GroupedKeys(o);
    Keys(StringKeyed(o)) + Keys(SymbolKeyed(o))
  }

  lemma GroupedKeys<V>(o: Props<V>)
    ensures var ks := Keys(StringKeyed(o)) + Keys(SymbolKeyed(o));
            && multiset(ks) == multiset(Keys(o))
            && |ks| == |o|
            && exists n :: 0 <= n <= |ks| && (forall i :: 0 <= i < n ==> ks[i].StrKey?) &&
                 (forall i :: n <= i < |ks| ==> ks[i].SymKey?) &&
                 Subsequence(ks[..n], Keys(o)) && Subsequence(ks[n..], Keys(o))
  {
    var strs := Keys(StringKeyed(o));
    var syms := Keys(SymbolKeyed(o));
    KeyedPartition(o);
    KeyedInOrder(o);
    assert (strs + syms)[..|strs|] == strs && (strs + syms)[|strs|..] == syms;
    assert multiset(strs + syms) == multiset(Keys(o));
    assert |strs + syms| == |multiset(strs + syms)|;
    assert |Keys(o)| == |multiset(Keys(o))|;
  }

  /** The properties `ownKeys` enumerates, in its order, each with its value. */
  function OwnProps<V>(o: Props<V>): (ps: Props<V>)
    ensures Keys(ps) == OwnKeys(o)
    ensures forall i :: 0 <= i < |ps| ==> ps[i] in o
  {
    var ps := StringKeyed(o) + SymbolKeyed(o);
    assert Keys(ps) == Keys(StringKeyed(o)) + Keys(SymbolKeyed(o));
    ps
  }

  /** `struct(fields)`: one readonly field per own key of `fields`, in
      `ownKeys` order, with the schema stored under that key; the field is
      optional exactly when that schema carries the optional marker. */
  function StructOf(fields: Props<Schema>): (r: Schema)
    ensures r.ast.Struct? && !r.isOptional
    ensures r.ast.indexSignatures == [] && !r.ast.allowUnexpected && r.ast.annotations == []
    ensures |r.ast.fields| == |OwnKeys(fields)|
    ensures forall i :: 0 <= i < |r.ast.fields| ==>
              var f := r.ast.fields[i];
              f.key == OwnKeys(fields)[i] && f.isReadonly &&
              (DistinctKeys(fields) ==> Lookup(fields, f.key) == Some(Schema(f.value, f.isOptional)))
  {
    var own := OwnProps(fields);
    assert forall i :: 0 <= i < |own| ==> own[i].0 == OwnKeys(fields)[i];
    assert DistinctKeys(fields) ==> forall i :: 0 <= i < |own| ==> Lookup(fields, own[i].0) == Some(own[i].1) by {
      if DistinctKeys(fields) {
        forall i | 0 <= i < |own| ensures Lookup(fields, own[i].0) == Some(own[i].1) {
          var j :| 0 <= j < |fields| && fields[j] == own[i];
          LookupDistinct(fields, j);
        }
      }
    }
    Make(StructAst(seq(|own|, i requires 0 <= i < |own| => Field(own[i].0, own[i].1.ast, own[i].1.isOptional, true)), []))
  }

  /** `tuple(...elements)`: one required element per schema, in order, no
      rest, and indices beyond the elements allowed. */
  function TupleOf(elements: seq<Schema>): (r: Schema)
    ensures r.ast.Tuple? && !r.isOptional
    ensures |r.ast.elements| == |elements|
    ensures forall i :: 0 <= i < |elements| ==> r.ast.elements[i] == Element(elements[i].ast, false)
    ensures r.ast.rest == None && r.ast.allowUnexpected
  {
    Make(Tuple(seq(|elements|, i requires 0 <= i < |elements| => Element(elements[i].ast, false)), None, true, []))
  }

  /** `array(item)`: a tuple with no elements whose rest is `[item]`. */
  function ArrayOf(item: Schema): (r: Schema)
    ensures r.ast.Tuple? && r.ast.elements == [] && r.ast.rest == Some([item.ast]) && r.ast.allowUnexpected
  {
    Make(Tuple([], Some([item.ast]), true, []))
  }

  /** `getAnnotation(key)(annotated)`: the annotation stored under `key` when
      `key` is an own key of the annotations, none otherwise. */
  function GetAnnotation(key: Key, annotated: AST): (r: Option<Annotation>)
    ensures r.Some? <==> HasKey(annotated.annotations, key)
    ensures r.Some? ==> (key, r.value) in annotated.annotations
  {
    Lookup(annotated.annotations, key)
  }

  // ---------------------------------------------
  // memoize
  // ---------------------------------------------

  /** The function `memoize(f)` returns, with the cache it closes over.
      `calls` records, in order, the arguments `f` has been applied to. */
  class Memo<A(==,!new), B> {
    const f: A -> B
    var cache: map<A, B>
    ghost var calls: seq<A>

    /** The cache holds `f`'s own results, for exactly the arguments `f`
        was applied to, and `f` was applied to each argument at most once. */
    ghost predicate Valid()
      reads this
    {
      && (forall a :: a in cache ==> cache[a] == f(a))
      && (forall a :: a in cache <==> a in calls)
      && (forall i, j :: 0 <= i < j < |calls| ==> calls[i] != calls[j])
    }

    constructor (f: A -> B)
      ensures Valid() && this.f == f && cache == map[] && calls == []
    {
      this.f := f;
      cache := map[];
      calls := [];
    }

    /** Calling the memoized function: `f(a)`, computed on the first call
        for `a` and read from the cache on every later one. */
    method Apply(a: A) returns (b: B)
      requires Valid()
      modifies this
      ensures Valid()
      ensures b == f(a)
      ensures old(a in cache) ==> cache == old(cache) && calls == old(calls)
      ensures old(a !in cache) ==> cache == old(cache)[a := b] && calls == old(calls) + [a]
    {
      if a !in cache {
        b := f(a);
        cache := cache[a := b];
        calls := calls + [a];
        return;
      }
      b := cache[a];
    }
  }
}
