/** src/data/refinement.ts: the refinements that wrap a schema in a
    Refinement node whose predicate compares a string's length, prefix or
    suffix, or a number's order or integrality, with the parameter recorded
    in the node's `meta` and, for most, a JSON-schema hint in its
    annotations. */
module Refinements {
  import opened JsValues
  import opened Ast
  import opened Common

  /** The predicate a Refinement node applies to a value, as the source's
      closure computes it. String checks see the `length` of the string,
      counted in characters. The predicates are only ever applied to values
      their `from` schema has already accepted (a string, a number); any
      other value is rejected. */
  predicate Holds(check: Check, v: Value)
  {
    match check
    case LengthAtLeast(n) => v.Str? && GreaterOrEqual(Finite(|v.s| as real), n)
    case LengthAtMost(n) => v.Str? && LessOrEqual(Finite(|v.s| as real), n)
    case HasPrefix(p) => v.Str? && p <= v.s
    case HasSuffix(x) => v.Str? && |x| <= |v.s| && v.s[|v.s| - |x|..] == x
    case Above(m) => v.Num? && Greater(v.n, m)
    case AtLeast(m) => v.Num? && GreaterOrEqual(v.n, m)
    case Below(m) => v.Num? && Less(v.n, m)
    case AtMost(m) => v.Num? && LessOrEqual(v.n, m)
    case IsInt => v.Num? && IsInteger(v.n)
  }

  /** Every predicate on the chain of Refinement nodes at the top of `ast`
      accepts `v` (the checks a value must pass on top of the base type). */
  predicate RefinementsHold(ast: AST, v: Value)
  {
    ast.Refinement? ==> Holds(ast.check, v) && RefinementsHold(ast.from, v)
  }

  /** A one-entry `meta` record `{ name: n }`. */
  function NumberMeta(name: string, n: Number): Props<Value>
  {
    [(StrKey(name), Num(n))]
  }

  /** `minLength(n)(self)` */
  function MinLength(minLength: Number, self: Schema): (r: Schema)
    ensures r.ast.Refinement? && r.ast.from == self.ast && !r.isOptional
    ensures r.ast.meta == [(StrKey("minLength"), Num(minLength))]
    ensures r.ast.annotations == JsonSchemaAnnotation(r.ast.meta)
    ensures forall s :: Holds(r.ast.check, Str(s)) <==> GreaterOrEqual(Finite(|s| as real), minLength)
  {
    RefinementOf(self, LengthAtLeast(minLength), NumberMeta("minLength", minLength), JsonSchemaAnnotation(NumberMeta("minLength", minLength)))
  }

  /** `maxLength(n)(self)` */
  function MaxLength(maxLength: Number, self: Schema): (r: Schema)
    ensures r.ast.Refinement? && r.ast.from == self.ast && !r.isOptional
    ensures r.ast.meta == [(StrKey("maxLength"), Num(maxLength))]
    ensures r.ast.annotations == JsonSchemaAnnotation(r.ast.meta)
    ensures forall s :: Holds(r.ast.check, Str(s)) <==> LessOrEqual(Finite(|s| as real), maxLength)
  {
    RefinementOf(self, LengthAtMost(maxLength), NumberMeta("maxLength", maxLength), JsonSchemaAnnotation(NumberMeta("maxLength", maxLength)))
  }

  /** `startsWith(p)(self)`: no JSON-schema hint. */
  function StartsWith(startsWith: string, self: Schema): (r: Schema)
    ensures r.ast.Refinement? && r.ast.from == self.ast && !r.isOptional
    ensures r.ast.meta == [(StrKey("startsWith"), Str(startsWith))] && r.ast.annotations == []
  {
    RefinementOf(self, HasPrefix(startsWith), [(StrKey("startsWith"), Str(startsWith))], [])
  }

  /** `endsWith(x)(self)`: no JSON-schema hint. */
  function EndsWith(endsWith: string, self: Schema): (r: Schema)
    ensures r.ast.Refinement? && r.ast.from == self.ast && !r.isOptional
    ensures r.ast.meta == [(StrKey("endsWith"), Str(endsWith))] && r.ast.annotations == []
  {
    RefinementOf(self, HasSuffix(endsWith), [(StrKey("endsWith"), Str(endsWith))], [])
  }

  /** `startsWith(p)` accepts exactly the strings that are `p` followed by something. */
  lemma StartsWithMeaning(p: string, self: Schema, s: string)
    ensures Holds(StartsWith(p, self).ast.check, Str(s)) <==> exists t :: s == p + t
  {
    if p <= s {
      assert s == p + s[|p|..];
    }
  }

  /** `endsWith(x)` accepts exactly the strings that are something followed by `x`. */
  lemma EndsWithMeaning(x: string, self: Schema, s: string)
    ensures Holds(EndsWith(x, self).ast.check, Str(s)) <==> exists t :: s == t + x
  {
    if |x| <= |s| && s[|s| - |x|..] == x {
      assert s == s[..|s| - |x|] + x;
    }
    if t :| s == t + x {
      assert s[|t|..] == x;
    }
  }

  /** `greaterThan(min)(self)` */
  function GreaterThan(min: Number, self: Schema): (r: Schema)
    ensures r.ast.Refinement? && r.ast.from == self.ast && !r.isOptional
    ensures r.ast.meta == [(StrKey("exclusiveMinimum"), Num(min))]
    ensures r.ast.annotations == JsonSchemaAnnotation(r.ast.meta)
    ensures forall a :: Holds(r.ast.check, Num(a)) <==> Greater(a, min)
  {
    RefinementOf(self, Above(min), NumberMeta("exclusiveMinimum", min), JsonSchemaAnnotation(NumberMeta("exclusiveMinimum", min)))
  }

  /** `greaterThanOrEqualTo(min)(self)` */
  function GreaterThanOrEqualTo(min: Number, self: Schema): (r: Schema)
    ensures r.ast.Refinement? && r.ast.from == self.ast && !r.isOptional
    ensures r.ast.meta == [(StrKey("minimum"), Num(min))]
    ensures r.ast.annotations == JsonSchemaAnnotation(r.ast.meta)
    ensures forall a :: Holds(r.ast.check, Num(a)) <==> GreaterOrEqual(a, min)
  {
    RefinementOf(self, AtLeast(min), NumberMeta("minimum", min), JsonSchemaAnnotation(NumberMeta("minimum", min)))
  }

  /** `lessThan(max)(self)` */
  function LessThan(max: Number, self: Schema): (r: Schema)
    ensures r.ast.Refinement? && r.ast.from == self.ast && !r.isOptional
    ensures r.ast.meta == [(StrKey("exclusiveMaximum"), Num(max))]
    ensures r.ast.annotations == JsonSchemaAnnotation(r.ast.meta)
    ensures forall a :: Holds(r.ast.check, Num(a)) <==> Less(a, max)
  {
    RefinementOf(self, Below(max), NumberMeta("exclusiveMaximum", max), JsonSchemaAnnotation(NumberMeta("exclusiveMaximum", max)))
  }

  /** `lessThanOrEqualTo(max)(self)` */
  function LessThanOrEqualTo(max: Number, self: Schema): (r: Schema)
    ensures r.ast.Refinement? && r.ast.from == self.ast && !r.isOptional
    ensures r.ast.meta == [(StrKey("maximum"), Num(max))]
    ensures r.ast.annotations == JsonSchemaAnnotation(r.ast.meta)
    ensures forall a :: Holds(r.ast.check, Num(a)) <==> LessOrEqual(a, max)
  {
    RefinementOf(self, AtMost(max), NumberMeta("maximum", max), JsonSchemaAnnotation(NumberMeta("maximum", max)))
  }

  /** `int(self)`: meta and hint `{ type: "integer" }`. */
  function Int(self: Schema): (r: Schema)
    ensures r.ast.Refinement? && r.ast.from == self.ast && !r.isOptional
    ensures r.ast.meta == [(StrKey("type"), Str("integer"))]
    ensures r.ast.annotations == JsonSchemaAnnotation(r.ast.meta)
    ensures forall a :: Holds(r.ast.check, Num(a)) <==> a.Finite? && a.r.Floor as real == a.r
  {
    RefinementOf(self, IsInt, [(StrKey("type"), Str("integer"))], JsonSchemaAnnotation([(StrKey("type"), Str("integer"))]))
  }

  /** `greaterThan` is strict and `greaterThanOrEqualTo` is not: they differ
      on `min` itself, which only the latter accepts (unless `min` is NaN,
      which nothing is greater than or equal to). */
  lemma GreaterThanStrictness(min: Number, self: Schema, a: Number)
    ensures var gt := GreaterThan(min, self).ast.check;
            var gte := GreaterThanOrEqualTo(min, self).ast.check;
            && !Holds(gt, Num(min))
            && (Holds(gte, Num(min)) <==> !min.NaN?)
            && (Holds(gte, Num(a)) <==> Holds(gt, Num(a)) || (a == min && !min.NaN?))
  {
    NumberOrder(min, a, a);
  }

  /** `lessThan` is strict and `lessThanOrEqualTo` is not. */
  lemma LessThanStrictness(max: Number, self: Schema, a: Number)
    ensures var lt := LessThan(max, self).ast.check;
            var lte := LessThanOrEqualTo(max, self).ast.check;
            && !Holds(lt, Num(max))
            && (Holds(lte, Num(max)) <==> !max.NaN?)
            && (Holds(lte, Num(a)) <==> Holds(lt, Num(a)) || (a == max && !max.NaN?))
  {
    NumberOrder(a, max, max);
  }

  /** The examples the `int` refinement's tests check: 0 and 1 are integers,
      0.5 is not; neither are NaN and the infinities. */
  lemma IntExamples(self: Schema)
    ensures var c := Int(self).ast.check;
            && Holds(c, Num(Finite(0.0))) && Holds(c, Num(Finite(1.0)))
            && !Holds(c, Num(Finite(0.5)))
            && !Holds(c, Num(NaN)) && !Holds(c, Num(Infinity(true))) && !Holds(c, Num(Infinity(false)))
  {
    assert (0.5).Floor == 0;
  }

  /** With a length bound that is not NaN, every string passes `minLength(n)`
      or `maxLength(n)`, and passes both exactly when its length is `n`. */
  lemma LengthBounds(n: Number, self: Schema, s: string)
    requires !n.NaN?
    ensures var lo := MinLength(n, self).ast.check;
            var hi := MaxLength(n, self).ast.check;
            && (Holds(lo, Str(s)) || Holds(hi, Str(s)))
            && (Holds(lo, Str(s)) && Holds(hi, Str(s)) <==> n == Finite(|s| as real))
  {
    NumberOrder(n, Finite(|s| as real), n);
  }
}
