/** The schema AST as the core files build and inspect it, and the schema
    wrapper around it. src/AST.ts is not part of this model: the node shapes
    are those the core files construct and read (`elements`, `rest`,
    `allowUnexpected`, `fields`, `indexSignatures`, `members`, `from`,
    `annotations`), and the few AST constructors they call are given here. */
module Ast {
  import opened Wrappers
  import opened JsValues

  /** An annotation value. Only the JSON-schema hint is interpreted by the
      core; every other annotation is an opaque value. */
  datatype Annotation = JsonSchemaHint(schema: Props<Value>) | Opaque(value: Value)

  /** The annotations of a node: a record keyed by strings and symbols. */
  type Annotations = Props<Annotation>

  /** The key the JSON-schema hint is stored under (a symbol). */
  const JsonSchemaAnnotationId: Key := SymKey("@fp-ts/schema/annotation/JSONSchemaAnnotation")

  /** `jsonSchemaAnnotation(schema)`, stored under `JsonSchemaAnnotationId`. */
  function JsonSchemaAnnotation(schema: Props<Value>): Annotations
  {
    [(JsonSchemaAnnotationId, JsonSchemaHint(schema))]
  }

  /** The built-in base types. */
  datatype KeywordKind =
    | UndefinedKeyword | VoidKeyword | NeverKeyword | UnknownKeyword | AnyKeyword
    | StringKeyword | NumberKeyword | BooleanKeyword | BigIntKeyword | SymbolKeyword | ObjectKeyword

  /** The predicate a Refinement node applies to an already decoded value.
      The source stores it as a closure; each closure the core creates is one
      of these, with its parameter. */
  datatype Check =
    | LengthAtLeast(minLength: Number)
    | LengthAtMost(maxLength: Number)
    | HasPrefix(prefix: string)
    | HasSuffix(suffix: string)
    | Above(exclusiveMinimum: Number)
    | AtLeast(minimum: Number)
    | Below(exclusiveMaximum: Number)
    | AtMost(maximum: Number)
    | IsInt

  datatype AST =
    | Declaration(id: string, typeParameters: seq<AST>, annotations: Annotations)
    | Literal(literal: Value, annotations: Annotations)
    | UniqueSymbol(symbol: string, annotations: Annotations)
    | Keyword(keyword: KeywordKind, annotations: Annotations)
    | Enums(enums: seq<(string, Value)>, annotations: Annotations)
    | Tuple(elements: seq<Element>, rest: Option<seq<AST>>, allowUnexpected: bool, annotations: Annotations)
    | Struct(fields: seq<Field>, indexSignatures: seq<IndexSignature>, allowUnexpected: bool, annotations: Annotations)
    | Union(members: seq<AST>, annotations: Annotations)
    | Refinement(from: AST, check: Check, meta: Props<Value>, annotations: Annotations)
    | TypeAlias(typeParameters: seq<AST>, aliased: AST, annotations: Annotations)
    | Lazy(name: string, annotations: Annotations)

  /** A tuple element: its type and whether it may be absent. */
  datatype Element = Element(ast: AST, isOptional: bool)

  /** A declared struct field. */
  datatype Field = Field(key: Key, value: AST, isOptional: bool, isReadonly: bool)

  /** An index signature: values of keys accepted by `key` are checked against `value`. */
  datatype IndexSignature = IndexSignature(key: AST, value: AST, isReadonly: bool)

  /** `Schema<A>`: an AST, plus the marker that `optional` sets. */
  datatype Schema = Schema(ast: AST, isOptional: bool)

  /** `makeSchema(ast)`: a plain schema, without the optional marker. */
  function Make(ast: AST): Schema
  {
    Schema(ast, false)
  }

  /** `AST.struct(fields, indexSignatures)`: no annotations, unexpected keys disallowed. */
  function StructAst(fields: seq<Field>, indexSignatures: seq<IndexSignature>): AST
  {
    Struct(fields, indexSignatures, false, [])
  }

  /** `AST.literalType(value)` */
  function LiteralAst(value: Value): AST
  {
    Literal(value, [])
  }

  /** The members of a union after flattening: a member that is itself a
      union contributes its own members in its place. */
  function FlattenMembers(members: seq<AST>): seq<AST>
  {
    if |members| == 0 then []
    else
      (if members[0].Union? then members[0].members else [members[0]]) + FlattenMembers(members[1..])
  }

  /** `AST.union(members)`: members flattened, in order; a single member stands for itself. */
  function UnionAst(members: seq<AST>): AST
  {
    var flat := FlattenMembers(members);
    if |flat| == 1 then flat[0] else Union(flat, [])
  }

  /** `AST.appendRestElement(tuple, rest)`: `rest` becomes the last rest type. */
  function AppendRestElement(tuple: AST, rest: AST): AST
    requires tuple.Tuple?
  {
    match tuple.rest
    case None => tuple.(rest := Some([rest]))
    case Some(rs) => tuple.(rest := Some(rs + [rest]))
  }

  /** `AST.appendElement(tuple, element)`: `element` becomes the last element. */
  function AppendElement(tuple: AST, element: Element): AST
    requires tuple.Tuple?
  {
    tuple.(elements := tuple.elements + [element])
  }
}
