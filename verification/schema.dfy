/** src/Schema.ts: the combinators that rewrite a schema's AST (unexpected
    keys, tuple rest and elements, struct extension) and the filters and
    combinators derived from the refinement module and the constructors. */
module SchemaCombinators {
  import opened Wrappers
  import opened JsValues
  import opened Ast
  import opened Common
  import opened Refinements

  /** `allowUnexpected(self)`: on a struct or a tuple the flag is set and the
      node is otherwise kept; any other schema is returned as it is. */
  function AllowUnexpected(self: Schema): (r: Schema)
    ensures self.ast.Struct? || self.ast.Tuple? ==> r == Make(self.ast.(allowUnexpected := true))
    ensures !(self.ast.Struct? || self.ast.Tuple?) ==> r == self
  {
    if self.ast.Struct? || self.ast.Tuple? then Make(self.ast.(allowUnexpected := true)) else self
  }

  /** `disallowUnexpected(self)`: only a struct has its flag cleared; tuples
      and every other schema are returned as they are. */
  function DisallowUnexpected(self: Schema): (r: Schema)
    ensures self.ast.Struct? ==> r == Make(self.ast.(allowUnexpected := false))
    ensures !self.ast.Struct? ==> r == self
  {
    if self.ast.Struct? then Make(self.ast.(allowUnexpected := false)) else self
  }

  /** Applying `allowUnexpected` twice is applying it once, and so for
      `disallowUnexpected`; on a struct the two only toggle the flag, so
      the last one applied wins. */
  lemma UnexpectedToggles(self: Schema)
    ensures AllowUnexpected(AllowUnexpected(self)) == AllowUnexpected(self)
    ensures DisallowUnexpected(DisallowUnexpected(self)) == DisallowUnexpected(self)
    ensures self.ast.Struct? ==> DisallowUnexpected(AllowUnexpected(self)) == DisallowUnexpected(self)
    ensures self.ast.Struct? ==> AllowUnexpected(DisallowUnexpected(self)) == AllowUnexpected(self)
    ensures self.ast.Struct? && !self.isOptional && !self.ast.allowUnexpected ==>
              DisallowUnexpected(AllowUnexpected(self)) == self
  {
  }

  /** `rest(rest)(self)`: on a tuple, `rest` becomes the last rest type and
      nothing else changes; on any other schema it throws. */
  function Rest(rest: Schema, self: Schema): (r: Result<Schema, string>)
    ensures r.Ok? <==> self.ast.Tuple?
    ensures r.Ok? ==> && r.value.ast.Tuple? && !r.value.isOptional
                      && r.value.ast.elements == self.ast.elements
                      && r.value.ast.rest == Some((if self.ast.rest.Some? then self.ast.rest.value else []) + [rest.ast])
                      && r.value.ast.allowUnexpected == self.ast.allowUnexpected
                      && r.value.ast.annotations == self.ast.annotations
    ensures r.Err? ==> r.error == "`rest` is not supported on this schema"
  {
    assert [] + [rest.ast] == [rest.ast];
    if self.ast.Tuple? then Ok(Make(AppendRestElement(self.ast, rest.ast)))
    else Err("`rest` is not supported on this schema")
  }

  /** `element(element)(self)`: on a tuple, one required element is
      appended after the existing ones; on any other schema it throws. */
  function RequiredElement(element: Schema, self: Schema): (r: Result<Schema, string>)
    ensures r.Ok? <==> self.ast.Tuple?
    ensures r.Ok? ==> && r.value.ast == self.ast.(elements := self.ast.elements + [Element(element.ast, false)])
                      && !r.value.isOptional
    ensures r.Err? ==> r.error == "`element` is not supported on this schema"
  {
    if self.ast.Tuple? then Ok(Make(AppendElement(self.ast, Element(element.ast, false))))
    else Err("`element` is not supported on this schema")
  }

  /** `optionalElement(element)(self)`: as `element`, with the new element
      optional. */
  function OptionalElement(element: Schema, self: Schema): (r: Result<Schema, string>)
    ensures r.Ok? <==> self.ast.Tuple?
    ensures r.Ok? ==> && r.value.ast == self.ast.(elements := self.ast.elements + [Element(element.ast, true)])
                      && !r.value.isOptional
    ensures r.Err? ==> r.error == "`optionalElement` is not supported on this schema"
  {
    if self.ast.Tuple? then Ok(Make(AppendElement(self.ast, Element(element.ast, true))))
    else Err("`optionalElement` is not supported on this schema")
  }

  /** Appending an element to `tuple(...es)` is `tuple(...es, e)`. */
  lemma ElementExtendsTuple(es: seq<Schema>, e: Schema)
    ensures RequiredElement(e, TupleOf(es)) == Ok(TupleOf(es + [e]))
  {
    var lhs := RequiredElement(e, TupleOf(es)).value.ast;
    var rhs := TupleOf(es + [e]).ast;
    assert lhs.elements == rhs.elements;
  }

  /** `extend(that)(self)`: two structs give a struct with the fields of
      `self` then those of `that`, and the index signatures likewise; the
      result has no annotations and disallows unexpected keys. Any other
      pair throws. */
  function Extend(that: Schema, self: Schema): (r: Result<Schema, string>)
    ensures r.Ok? <==> self.ast.Struct? && that.ast.Struct?
    ensures r.Ok? ==> && r.value.ast.Struct? && !r.value.isOptional
                      && r.value.ast.fields == self.ast.fields + that.ast.fields
                      && r.value.ast.indexSignatures == self.ast.indexSignatures + that.ast.indexSignatures
                      && !r.value.ast.allowUnexpected && r.value.ast.annotations == []
    ensures r.Err? ==> r.error == "`extend` is not supported on this schema"
  {
    if self.ast.Struct? && that.ast.Struct? then
      Ok(Make(StructAst(self.ast.fields + that.ast.fields, self.ast.indexSignatures + that.ast.indexSignatures)))
    else Err("`extend` is not supported on this schema")
  }

  /** Extending is associative: `a` extended by `b`, then by `c`, is `a`
      extended by (`b` extended by `c`). */
  lemma ExtendAssociative(a: Schema, b: Schema, c: Schema)
    requires a.ast.Struct? && b.ast.Struct? && c.ast.Struct?
    ensures Extend(c, Extend(b, a).value).Ok? && Extend(Extend(c, b).value, a).Ok?
    ensures Extend(c, Extend(b, a).value) == Extend(Extend(c, b).value, a)
  {
    assert (a.ast.fields + b.ast.fields) + c.ast.fields == a.ast.fields + (b.ast.fields + c.ast.fields);
    assert (a.ast.indexSignatures + b.ast.indexSignatures) + c.ast.indexSignatures
        == a.ast.indexSignatures + (b.ast.indexSignatures + c.ast.indexSignatures);
  }

  /** The empty struct is a unit for `extend` on either side, up to the
      flag and annotations `extend` resets. */
  lemma ExtendUnit(s: Schema)
    requires s.ast.Struct?
    ensures Extend(StructOf([]), s) == Ok(Make(StructAst(s.ast.fields, s.ast.indexSignatures)))
    ensures Extend(s, StructOf([])) == Ok(Make(StructAst(s.ast.fields, s.ast.indexSignatures)))
  {
    assert s.ast.fields + [] == s.ast.fields && [] + s.ast.fields == s.ast.fields;
    assert s.ast.indexSignatures + [] == s.ast.indexSignatures && [] + s.ast.indexSignatures == s.ast.indexSignatures;
  }

  /** `length(n)(self)`: `minLength(n)` over `maxLength(n)` over `self`,
      each layer with its own metadata and JSON-schema hint. */
  function Length(length: Number, self: Schema): (r: Schema)
    ensures r.ast.Refinement? && r.ast.from.Refinement? && r.ast.from.from == self.ast && !r.isOptional
    ensures r.ast.meta == [(StrKey("minLength"), Num(length))] && r.ast.annotations == JsonSchemaAnnotation(r.ast.meta)
    ensures r.ast.from.meta == [(StrKey("maxLength"), Num(length))] && r.ast.from.annotations == JsonSchemaAnnotation(r.ast.from.meta)
    ensures forall s :: Holds(r.ast.check, Str(s)) <==> GreaterOrEqual(Finite(|s| as real), length)
    ensures forall s :: Holds(r.ast.from.check, Str(s)) <==> LessOrEqual(Finite(|s| as real), length)
  {
    MinLength(length, MaxLength(length, self))
  }

  /** `length(n)` accepts a string exactly when `self`'s refinements do and
      its length is `n`. */
  lemma LengthAccepts(n: Number, self: Schema, s: string)
    ensures RefinementsHold(Length(n, self).ast, Str(s)) <==> RefinementsHold(self.ast, Str(s)) && n == Finite(|s| as real)
  {
    NumberOrder(n, Finite(|s| as real), n);
  }

  /** `nonEmpty(self)`: `minLength(1)`, with its metadata and hint. */
  function NonEmpty(self: Schema): (r: Schema)
    ensures r.ast.Refinement? && r.ast.from == self.ast && !r.isOptional
    ensures r.ast.meta == [(StrKey("minLength"), Num(Finite(1.0)))] && r.ast.annotations == JsonSchemaAnnotation(r.ast.meta)
  {
    MinLength(Finite(1.0), self)
  }

  /** `nonEmpty` accepts exactly the strings with at least one character. */
  lemma NonEmptyAccepts(self: Schema, s: string)
    ensures Holds(NonEmpty(self).ast.check, Str(s)) <==> |s| > 0
  {
  }

  /** `nullable(self)`: the union of `self` and `literal(null)`, in that order. */
  function Nullable(self: Schema): (r: Schema)
    ensures !self.ast.Union? ==> r.ast == Union([self.ast, LiteralAst(Null)], [])
    ensures self.ast.Union? && |self.ast.members| > 0 ==> r.ast == Union(self.ast.members + [LiteralAst(Null)], [])
  {
    var lit := LiteralOf([Null]);
    assert lit == Make(LiteralAst(Null)) by {
      assert seq(1, i requires 0 <= i < 1 => Make(LiteralAst([Null][i]))) == [Make(LiteralAst(Null))];
      assert seq(1, i requires 0 <= i < 1 => [Make(LiteralAst(Null))][i].ast) == [LiteralAst(Null)];
      assert FlattenMembers([LiteralAst(Null)]) == [LiteralAst(Null)];
    }
    var members := [self, lit];
    assert seq(2, i requires 0 <= i < 2 => members[i].ast) == [self.ast, LiteralAst(Null)];
    assert FlattenMembers([self.ast, LiteralAst(Null)])
        == (if self.ast.Union? then self.ast.members else [self.ast]) + [LiteralAst(Null)] by {
      assert [self.ast, LiteralAst(Null)][1..] == [LiteralAst(Null)];
      assert [LiteralAst(Null)][1..] == [];
    }
    assert [self.ast] + [LiteralAst(Null)] == [self.ast, LiteralAst(Null)];
    UnionOf(members)
  }

  /** `nonEmptyArray(item)`: `tuple(item)` with rest `item`, so one required
      `item` followed by any number more. */
  function NonEmptyArray(item: Schema): (r: Schema)
    ensures r.ast == Tuple([Element(item.ast, false)], Some([item.ast]), true, [])
    ensures !r.isOptional
  {
    Rest(item, TupleOf([item])).value
  }
}
