# fp-ts/schema core, modelled in Dafny

This project models the core of fp-ts/schema, a TypeScript library that describes a data shape once as a schema AST and derives artifacts from it. The model covers:

- **The graded decode result.** A `These` value is a success, a warning (errors together with a value) or a failure, with its constructors and classifiers.
- **Helpers in `src/internal/common.ts`.** These are the in-place `mutableAppend`, the JSON-shape predicates, annotation lookup, `ownKeys`, and the cache behind `memoize`.
- **Schema constructors.** `struct`, `tuple`, `array` and `optional` build AST nodes.
- **AST combinators in `src/Schema.ts`.** These cover unexpected keys, tuple rest and elements, and struct extension, plus the derived filters.
- **Refinements.** Those in `src/data/refinement.ts` and the stand-alone `greaterThanOrEqualTo` filter each wrap a schema in a Refinement node.
- **The `showFor` interpreter.** It renders a value by recursion on the schema description.
- **The optics derivation.** `provideUnsafeOpticsFor` builds a tree of key-path accessors that mirrors a schema's struct and tuple shape.
- **The JSON guard and the three JSON decoders.**

The JavaScript values these functions inspect are modelled in `js_values.dfy`:

- **Numbers** may be finite, NaN or an infinity, so the relational operators behave as in JavaScript.
- **Objects** are ordered sequences of properties keyed by strings or symbols. Reading a property of `undefined` or `null` is an error.
- **Built-ins.** The model includes `typeof`, `Array.isArray`, `Object.keys`, and `String(i)` for an array index.

`src/AST.ts` is not part of this model. The AST datatype in `ast.dfy` follows how the core files build and read nodes:

- A tuple has `elements`, an optional `rest` list and an `allowUnexpected` flag.
- A struct has `fields`, `indexSignatures` and an `allowUnexpected` flag.
- The AST constructors that the core calls are given as small functions:
  - `AST.struct` disallows unexpected keys and has no annotations.
  - `AST.union` flattens nested unions one level and collapses a single member to itself.
  - `appendRestElement` and `appendElement` add the new type last.

Points where the model reads the code in a particular way:

- **Wrappers in the optics tree.** `go` in `src/Optics.ts` has no case for `Refinement` or `TypeAlias` nodes and returns `undefined` for them, so here they give an error; they are not stripped.
- **Tag and field names in `src/Optics.ts`.** The file names its tags `Of` and its tuple parts `components`. The model reads these as the Literal tag and the tuple's element types.
- **Older API.** `src/Show.ts` and `src/data/Json.ts` are written against the older codec API. `showFor` therefore walks its own `Meta` description (module `Show`). Its guards, its context services and `JSON.stringify` are parameters.

Errors that the source throws are `Err` results. Where the message is the source's own (`rest`, `element`, `optionalElement`, `extend`), it is kept word for word.

## Model

| member | source | states |
|---|---|---|
| Common.Success | src/internal/common.ts:25 | `success(a)` carries `a` and no errors |
| Common.Failure | src/internal/common.ts:28 | `failure(e)` carries exactly the errors `[e]` and no value |
| Common.Failures | src/internal/common.ts:31-33 | `failures(es)` keeps the given non-empty error list and carries no value |
| Common.Warning | src/internal/common.ts:36-37 | `warning(e, a)` carries both the errors `[e]` and the value `a` |
| Common.Warnings | src/internal/common.ts:40-43 | `warnings(es, a)` keeps the non-empty error list and carries `a` |
| Common.Classification | src/internal/common.ts:46-52 | every well-formed result is exactly one of success, failure and warning; success means no errors, failure means no value, warning means both |
| Common.IsSuccess | src/internal/common.ts:46 | `isSuccess`: the result carries a value and no errors; `Classification` states it excludes the other two |
| Common.IsFailure | src/internal/common.ts:49 | `isFailure`: the result carries errors and no value |
| Common.IsWarning | src/internal/common.ts:52 | `isWarning`: the result carries both errors and a value |
| Common.MutableAppend | src/internal/common.ts:61-64 | the array is grown in place by `a` at the end with earlier elements unchanged, and the same, now non-empty, array is returned |
| Common.IsUnknownObject | src/internal/common.ts:74-75 | true exactly for non-null, non-array objects |
| Common.IsJsonArray | src/internal/common.ts:78 | `isJsonArray`: an array whose every element is Json; `IsJsonKinds` states it with the other kinds |
| Common.IsJsonObject | src/internal/common.ts:81-82 | `isJsonObject`: a non-null, non-array object whose every `Object.keys` value is Json |
| Common.IsJson | src/internal/common.ts:85-89 | `isJson`: null, a string, a finite number, a boolean, a Json array or a Json object |
| Common.IsJsonKinds | src/internal/common.ts:78-89 | `isJson` accepts null, strings, booleans and finite numbers (not NaN or the infinities); an array iff every element is Json; an object iff every string-keyed value is Json; nothing else |
| Common.Optional | src/internal/common.ts:242-246 | `optional` keeps the AST and sets the optional marker |
| Common.StructOf | src/internal/common.ts:249-264 | one readonly field per own key of `fields`, in `ownKeys` order, with no index signatures; each field has that key's schema and is optional iff the schema carries the optional marker |
| Common.TupleOf | src/internal/common.ts:275-278 | one required element per schema, in order, no rest, unexpected indices allowed |
| Common.ArrayOf | src/internal/common.ts:284-285 | no elements and rest `[item]` |
| Common.GetAnnotation | src/internal/common.ts:299-305 | some annotation iff the key is an own key of the annotations, and then the value stored under it; never fails |
| Common.OwnKeys | src/internal/common.ts:312-313 | every own key exactly once (same multiset as the object's keys), every string key before every symbol key, and each of the two groups in the object's enumeration order (a subsequence of its keys) |
| Common.KeyedInOrder | src/internal/common.ts:312-313 | the string-keyed and the symbol-keyed properties each keep the object's enumeration order |
| Common.KeyedPartition | src/internal/common.ts:312-313 | the string-keyed and symbol-keyed properties together hold exactly the object's keys |
| Common.Memo.constructor | src/internal/common.ts:316-317 | a fresh memoized function starts with an empty cache |
| Common.Memo.Apply | src/internal/common.ts:318-327 | returns `f(a)`; on a hit the cache is unchanged and `f` is not called; on a miss `f` is called once and its result cached; the cache always holds `f`'s results for exactly the arguments `f` was called on, each once |
| SchemaCombinators.AllowUnexpected | src/Schema.ts:184-187 | on a struct or tuple only the flag is set (and the optional marker dropped); any other schema is returned as is |
| SchemaCombinators.DisallowUnexpected | src/Schema.ts:193-196 | only a struct has its flag cleared; tuples and everything else are returned as is |
| SchemaCombinators.UnexpectedToggles | src/Schema.ts:184-196 | both are idempotent; on a struct the last one applied decides the flag |
| SchemaCombinators.Rest | src/Schema.ts:230-236 | on a tuple `rest` becomes the last rest type with elements, flag and annotations kept; any other schema throws "`rest` is not supported on this schema" |
| SchemaCombinators.RequiredElement | src/Schema.ts:242-248 | on a tuple one required element is appended after the existing ones, nothing else changes; otherwise it throws |
| SchemaCombinators.OptionalElement | src/Schema.ts:254-260 | on a tuple one optional element is appended after the existing ones, nothing else changes; otherwise it throws |
| SchemaCombinators.ElementExtendsTuple | src/Schema.ts:242-248 | `element(e)` on `tuple(...es)` is `tuple(...es, e)` |
| SchemaCombinators.Extend | src/Schema.ts:375-384 | two structs give `self.fields ++ that.fields` and `self.indexSignatures ++ that.indexSignatures`, with unexpected keys disallowed and no annotations; any other pair throws |
| SchemaCombinators.ExtendAssociative | src/Schema.ts:375-384 | extending is associative on structs |
| SchemaCombinators.ExtendUnit | src/Schema.ts:375-384 | the empty struct is a unit for `extend` on both sides, up to the flag and annotations it resets |
| SchemaCombinators.Length | src/Schema.ts:99-100 | `length(n)` is `minLength(n)` (meta `{ minLength: n }`, its JSON-schema hint, accepts a string iff its length is `>= n`) over `maxLength(n)` (meta `{ maxLength: n }`, its hint, accepts iff the length is `<= n`) over `self` |
| SchemaCombinators.LengthAccepts | src/Schema.ts:99-100 | `length(n)` accepts a string iff `self`'s refinements do and its length is exactly `n` |
| SchemaCombinators.NonEmpty | src/Schema.ts:106 | `nonEmpty` refines `self` with meta `{ minLength: 1 }` and the same JSON-schema hint |
| SchemaCombinators.NonEmptyAccepts | src/Schema.ts:106 | `nonEmpty` accepts exactly the strings with at least one character |
| SchemaCombinators.Nullable | src/Schema.ts:210 | the union of `self` then the literal `null`, with a union `self` flattened into its members |
| SchemaCombinators.NonEmptyArray | src/Schema.ts:272-274 | one required `item` element and rest `[item]`, unexpected indices allowed |
| Refinements.MinLength | src/data/refinement.ts:100-106 | wraps `self` unchanged; accepts a string iff its length is `>= n`; meta `{ minLength: n }` and the same JSON-schema hint |
| Refinements.MaxLength | src/data/refinement.ts:89-95 | wraps `self` unchanged; accepts a string iff its length is `<= n`; meta `{ maxLength: n }` and the same hint |
| Refinements.StartsWith | src/data/refinement.ts:128-130 | wraps `self` unchanged; meta `{ startsWith }`, no hint |
| Refinements.StartsWithMeaning | src/data/refinement.ts:128-130 | accepts a string iff it is `p` followed by something |
| Refinements.EndsWith | src/data/refinement.ts:15-17 | wraps `self` unchanged; meta `{ endsWith }`, no hint |
| Refinements.EndsWithMeaning | src/data/refinement.ts:15-17 | accepts a string iff it is something followed by `x` |
| Refinements.GreaterThan | src/data/refinement.ts:28-32 | wraps `self` unchanged; accepts `a` iff `a > min`; meta and hint `{ exclusiveMinimum: min }` |
| Refinements.GreaterThanOrEqualTo | src/data/refinement.ts:37-41 | wraps `self` unchanged; accepts `a` iff `a >= min`; meta and hint `{ minimum: min }` |
| Refinements.LessThan | src/data/refinement.ts:71-75 | wraps `self` unchanged; accepts `a` iff `a < max`; meta and hint `{ exclusiveMaximum: max }` |
| Refinements.LessThanOrEqualTo | src/data/refinement.ts:80-84 | wraps `self` unchanged; accepts `a` iff `a <= max`; meta and hint `{ maximum: max }` |
| Refinements.Int | src/data/refinement.ts:63-66 | wraps `self` unchanged; accepts exactly finite numbers with no fractional part; meta and hint `{ type: "integer" }` |
| Refinements.GreaterThanStrictness | src/data/refinement.ts:28-41 | `greaterThan` rejects `min` itself, `greaterThanOrEqualTo` accepts it unless it is NaN, and they differ on nothing else |
| Refinements.LessThanStrictness | src/data/refinement.ts:71-84 | `lessThan` rejects `max` itself, `lessThanOrEqualTo` accepts it unless it is NaN, and they differ on nothing else |
| Refinements.IntExamples | test/data/refinement/Int.ts:13-18 | `int` accepts 0 and 1 and rejects 0.5, NaN and the infinities |
| Refinements.LengthBounds | src/data/refinement.ts:89-106 | with a non-NaN bound every string passes `minLength(n)` or `maxLength(n)`, and passes both iff its length is `n` |
| GreaterThanOrEqualToFilter.GreaterThanOrEqualTo | src/data/filter/GreaterThanOrEqualTo.ts:15-19 | wraps `self` unchanged; accepts `a` iff `a >= min`; meta exactly `{ minimum: min }`; `getAnnotation` finds the hint `{ minimum: min }` under the JSON-schema annotation id |
| GreaterThanOrEqualToFilter.AcceptsMinimum | src/data/filter/GreaterThanOrEqualTo.ts:17 | `min` itself is accepted unless it is NaN |
| GreaterThanOrEqualToFilter.SameAsRefinement | src/data/filter/GreaterThanOrEqualTo.ts:15-19 | the filter builds the same schema as `greaterThanOrEqualTo` in the refinement module and accepts the same values |
| Show.Derivable | src/Show.ts:30-72 | deriving `f(dsl)` succeeds: a constructor's service is in the context, and every tuple component, union member, struct field value, index-signature value and array item is itself derivable; a constructor's type argument is derived only when a value is shown |
| Show.ShowFor | src/Show.ts:28-78 | `f(dsl).show(a)`: no rendering for any value when `dsl` cannot be derived, otherwise the case-by-case rendering the lemmas below state |
| Show.FirstAccepting | src/Show.ts:52 | `findIndex`: the first member whose guard accepts the value, or none when no guard accepts it |
| Show.AllShown | src/Show.ts:43-45 | the parts of a `map(...).join(...)`: all texts in order when every part renders, otherwise the first failing part's error |
| Show.UnderivableFails | src/Show.ts:28-78 | a description whose derivation fails (a service missing for a constructor, or for any component, member, field, value or item below one) shows nothing, and a description that shows something was derived |
| Show.EagerDerivation | src/Show.ts:30-76 | components, members and items are derived before any value is shown: an empty tuple or array, a union whose first member accepts, and a constructor over an underivable type argument all fail when one part's service is missing |
| Show.ConstructorUsesService | src/Show.ts:30-33 | a constructor shows through its tag's service, which is given the show derived for the type argument; a missing service, or a type argument that cannot be derived, is an error |
| Show.LeavesStringify | src/Show.ts:34-41 | String, Number, Boolean and Literal all render the shown value through the one leaf renderer |
| Show.TupleRendering | src/Show.ts:42-46 | when every component can be derived, a tuple renders `"["` + item `i` shown by component `i`, in order, joined by `", "` + `"]"`; otherwise it has no rendering |
| Show.TupleFailures | src/Show.ts:42-46 | a non-array, or an array with more items than components, has no rendering |
| Show.UnionFirstAccepting | src/Show.ts:48-54 | when every member can be derived, a union renders with the first member, in declaration order, whose guard accepts the value; otherwise it has no rendering |
| Show.UnionNoneAccepting | src/Show.ts:51-53 | when no guard accepts the value there is no rendering |
| Show.StructRendering | src/Show.ts:56-63 | a struct renders `"{ "` + `key: shown` per declared field, in field order, joined by `", "` + `" }"`, on any value when there are no fields and on any other value than `null` and `undefined` otherwise; no fields give `"{  }"` |
| Show.StructOfNothing | src/Show.ts:56-63 | with at least one field, `null` and `undefined` have no struct rendering, since the first field read fails; with no fields nothing is read and both render as `"{  }"` |
| Show.IndexSignatureIsStruct | src/Show.ts:65-69 | when the value description can be derived, an index signature renders an object exactly as the struct over its `Object.keys` keys, each with the one value show; otherwise no object renders |
| Show.ArrayIsRepeatedTuple | src/Show.ts:71-76 | when the item can be derived, an array renders exactly as a tuple of as many item components as it has items; otherwise no array renders, not even the empty one |
| Optics.GetCompose | src/Optics.ts:59 | composing a key step reads that key of what the parent accessor reads |
| Optics.GetConcat | src/Optics.ts:49-59 | the identity accessor reads the value itself; reading along `p + q` reads `q` from what `p` reads (composition is associative) |
| Optics.LeavesHaveNoNodes | src/Optics.ts:51-55 | declarations, literals, unions and lazy schemas give an empty tree; keywords, unique symbols and enums are treated the same way, although `go` has no case for them |
| Optics.TupleErrorPersists | src/Optics.ts:57-65 | once a turn of the tuple loop fails, the whole loop fails with that error |
| Optics.StructErrorPersists | src/Optics.ts:69-77 | once a turn of the struct loop fails, the whole loop fails with that error |
| Optics.OpticsOf | src/Optics.ts:49-81 | the corrected `go`: the tree with one node per tuple component or struct key, each holding its accessor apart from its children; `TupleNodes`, `StructNodes` and `NodeAccessors` state its shape |
| Optics.Go | src/Optics.ts:49-81 | the loops build exactly the tree `OpticsOf` specifies: the corrected tree, in which each node keeps its accessor apart from its children rather than the `{ self, ...value }` object the code builds |
| Optics.OpticsFor | src/Optics.ts:47-84 | the optics of a schema are `go` from the root with the identity accessor |
| Optics.TupleNodes | src/Optics.ts:56-66 | a tuple tree has exactly one node per component, keyed `String(i)`; its accessor is the parent followed by that key, and its sub-tree is the component's own, built from that accessor |
| Optics.StructNodes | src/Optics.ts:68-78 | a struct tree has exactly one node per declared key; its accessor is the parent followed by that key, and its sub-tree is built from that accessor for the last field with the key |
| Optics.NodeAccessors | src/Optics.ts:56-78 | every node reached by a key path holds the root accessor followed by that key path |
| Optics.StructExample | test/Optics.ts:9-17 | for `struct({ a: string, b: struct({ c: number }) })` the accessors for `a`, `b` and `b.c` read `"a"`, `{ c: 1 }` and `1` from `{ a: "a", b: { c: 1 } }` |
| Optics.TupleExample | test/Optics.ts:19-27 | for `tuple(string, struct({ c: number }))` the accessors for `0`, `1` and `1.c` read `"a"`, `{ c: 1 }` and `1` from `["a", { c: 1 }]` |
| Optics.SpreadOpticsOf | src/Optics.ts:49-81 | `go` as written: each node is the object `{ self, ...value }`, the accessor under "self" with the child tree's keys spread over it |
| Optics.SpreadIsCorrectedSpread | src/Optics.ts:49-81 | the tree as written is the corrected tree with every node spread into `{ self, ...value }`, and the two fail alike, so they differ only in how a node holds its accessor |
| Optics.SpreadAgreesWithoutSelfFields | src/Optics.ts:61-64 | on a schema with no field named "self", following any key path of the tree as written and reading `self` gives the root accessor followed by that path, as in the corrected tree |
| Optics.SelfFieldShadowsAccessor | src/Optics.ts:61-64 | as written, a nested field named "self" replaces the node's accessor |
| Optics.SelfFieldKeepsAccessor | src/Optics.ts:71-76 | with the accessor kept apart, the node keeps its accessor and the "self" field stays reachable below it |
| JsValues.ParseIndexString | src/Optics.ts:59 | `String(i)` is the canonical index key of `i` and nothing else, so the tuple keys are distinct |
| Json.Guard | src/data/Json.ts:47-53 | `Guard.is`: null, a string, any number, a boolean, an array of accepted values, or an object whose every `Object.keys` value is accepted; `GuardKinds` states it kind by kind |
| Json.GuardKinds | src/data/Json.ts:47-53 | the guard accepts null, every string, number and boolean; an array iff every element is accepted; an object iff every string-keyed value is accepted; nothing else |
| Json.KeysAcceptedByEntries | src/data/Json.ts:52 | the object test is the `Object.keys` test over the values it pairs with each key |
| Json.IsJsonGuarded | src/data/Json.ts:47-53 | every value `isJson` accepts passes the guard |
| Json.GuardAcceptsNonFinite | src/data/Json.ts:50 | the guard, unlike `isJson`, accepts NaN and the infinities |
| Json.DocumentsAreJson | src/data/Json.ts:25-31 | every JSON document passes the guard and `isJson` |
| Json.Decoder | src/data/Json.ts:58-61 | succeeds, never with a warning, with the input unchanged iff the guard accepts it; otherwise fails with a "Json" type error |
| Json.JsonArrayDecoder | src/data/Json.ts:66-69 | succeeds with the input unchanged iff it is an array; otherwise fails with an "Array" type error |
| Json.JsonObjectDecoder | src/data/Json.ts:74-80 | succeeds with the input unchanged iff it is a non-null, non-array object; otherwise fails with an "Object" type error |
| Json.DecodersPartition | src/data/Json.ts:66-80 | for every composite JSON value exactly one of the array and object decoders succeeds, and neither does for the other values |

## Left out

- `makeGuard`, `makeArbitrary`, `makeDecoder`, `fromRefinement`, `makeEncoder`, `makePretty`, `typeAlias`, `uniqueSymbol`, `field`, `lazy`, `record` and `annotations` in `src/internal/common.ts` are out of scope: they are constructors outside the modelled core. `refinement`, `literal` and `union` are modelled as helpers without contracts of their own.
- `flatMap`, `mapLeft` and `isNonEmpty` are re-exports of library functions and are not modelled.
- `memoize`'s trace branch prints to the console, so it is I/O and left out. The cache is keyed by Dafny equality in place of `Map`'s SameValueZero.
- `Common.MutableAppend` models the array as a sequence field, so there is no aliasing beyond the returned reference being the argument itself.
- String length counts Dafny characters, not UTF-16 code units.
- Signed zero is not distinguished.
- Numbers are finite reals, NaN or an infinity, with no rounding to double precision.
- The `finite`, `nonNaN`, `regex` and `instanceOf` refinements are left out: they are IEEE-specific, or need a RegExp engine or prototype chains.
- `enums` relies on the reverse mapping of numeric TypeScript enums and is left out.
- `keyof`, `pick`, `omit` and `partial` are operations of `src/AST.ts` and are not part of this model.
- Refinement predicates are the fixed checks of `refinement.ts`, not arbitrary closures. A predicate applied to a value of another type than the one its `from` schema decodes rejects it.
- `Show.ShowFor`: the guards `guardFor` derives, the context services and `JSON.stringify` are parameters, and the guards are taken to be total.
  - A show that cannot be derived is modelled as an `Err` for every value, not as an exception raised before any value is given.
  - The error messages are descriptive, not the engine's own.
- `JsValues.GetProp`: reading a property returns only own properties and array or string indices; built-in properties such as `length` of a string or an array, and anything inherited through the prototype chain, read as `undefined`.
- `Optics` models an accessor by the key path it follows, read-only. Writing through a lens is not modelled.
- The tree is a map, so the enumeration order of its keys is not modelled.
- `Optics.Go`: refinement and type-alias nodes give an error. The source returns `undefined` at the root and throws only when the node is nested.
- `Optics.Go`: keywords, unique symbols and enums have no case in `go` either, so the code returns `undefined` for them and throws when one is nested. The model treats them as leaves with an empty tree, as the optics tests do for `string` and `number`, which are keyword schemas.
- The arbitraries and JSON `Show` of `src/data/Json.ts` are left out: they need a random source or `JSON.stringify`.

## Findings

| source | as written | input that shows it | evidently intended | confidence | as-written member | corrected member |
|---|---|---|---|---|---|---|
| src/Optics.ts:61-64, src/Optics.ts:73-76 | each node is the object `{ self, ...value }`, so the child's own keys are spread over the accessor | `struct({ a: struct({ self: literal("x") }) })`: `optics.a.self` is the node of field `a.self`, not the lens on `a` | every node's `self` is the lens focusing on that node, as the `GetOptics` type states | not executed; medium | Optics.SelfFieldShadowsAccessor | Optics.NodeAccessors |
