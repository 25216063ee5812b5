/** src/data/filter/GreaterThanOrEqualTo.ts: a stand-alone
    `greaterThanOrEqualTo` filter, built exactly as the one in the
    refinement module. */
module GreaterThanOrEqualToFilter {
  import opened Wrappers
  import opened JsValues
  import opened Ast
  import opened Common
  import Refinements

  /** `greaterThanOrEqualTo(min)(self)` */
  function GreaterThanOrEqualTo(min: Number, self: Schema): (r: Schema)
    ensures r.ast.Refinement? && r.ast.from == self.ast && !r.isOptional
    ensures r.ast.meta == [(StrKey("minimum"), Num(min))]
    ensures GetAnnotation(JsonSchemaAnnotationId, r.ast) == Some(JsonSchemaHint([(StrKey("minimum"), Num(min))]))
    ensures forall a :: Refinements.Holds(r.ast.check, Num(a)) <==> GreaterOrEqual(a, min)
  {
    var meta := [(StrKey("minimum"), Num(min))];
    RefinementOf(self, AtLeast(min), meta, JsonSchemaAnnotation(meta))
  }

  /** `min` itself passes the filter, whenever it is a number other than NaN. */
  lemma AcceptsMinimum(min: Number, self: Schema)
    ensures Refinements.Holds(GreaterThanOrEqualTo(min, self).ast.check, Num(min)) <==> !min.NaN?
  {
    NumberOrder(min, min, min);
  }

  /** The filter and the refinement module's `greaterThanOrEqualTo` accept
      the same values and build the same schema. */
  lemma SameAsRefinement(min: Number, self: Schema, v: Value)
    ensures GreaterThanOrEqualTo(min, self) == Refinements.GreaterThanOrEqualTo(min, self)
    ensures Refinements.RefinementsHold(GreaterThanOrEqualTo(min, self).ast, v)
        <==> Refinements.RefinementsHold(Refinements.GreaterThanOrEqualTo(min, self).ast, v)
  {
  }
}
