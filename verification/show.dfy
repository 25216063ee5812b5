/** src/Show.ts: `showFor(ctx)`, the interpreter that derives a `show`
    function from a schema description by recursion on its tag. The file
    walks the `Meta` description of the codec API, so that description has
    its own datatype here. The context's services, the derived guards and
    `JSON.stringify` are parameters of the model. */
module Show {
  import opened Wrappers
  import J = JsValues

  /** A schema description, by tag (the cases the interpreter handles). */
  datatype Meta =
    | Constructor(tag: string, t: Meta)
    | String
    | Number
    | Boolean
    | Literal(literal: J.Value)
    | Tuple(components: seq<Meta>)
    | Union(members: seq<Meta>)
    | Struct(fields: seq<MetaField>)
    | IndexSignature(value: Meta)
    | Array(item: Meta)

  datatype MetaField = MetaField(key: J.Key, value: Meta)

  /** The outcome of showing a value: the text, or the message of the
      TypeError the source throws. */
  type Shown = Result<string, string>

  /** A context service for a constructor tag: given the show of the type
      argument, it shows a value of the constructed type. */
  type Service = (J.Value -> Shown, J.Value) -> Shown

  /** What `showFor` is given or derives outside this file: the services of
      the context, the guard `guardFor(ctx)` derives for a description, and
      `JSON.stringify`. */
  datatype Env = Env(services: map<string, Service>, accepts: (Meta, J.Value) -> bool, stringify: J.Value -> string)

  /** `xs.join(sep)` */
  function Join(xs: seq<string>, sep: string): (s: string)
    ensures |xs| == 0 ==> s == ""
    ensures |xs| == 1 ==> s == xs[0]
  {
    if |xs| == 0 then "" else if |xs| == 1 then xs[0] else xs[0] + sep + Join(xs[1..], sep)
  }

  /** The parts of a `map(...).join(...)` in which every part is shown: the
      texts in order, or the first failure (the source throws at the first
      failing part). */
  function AllShown(rs: seq<Shown>): (r: Result<seq<string>, string>)
    ensures r.Ok? <==> forall i :: 0 <= i < |rs| ==> rs[i].Ok?
    ensures r.Ok? ==> |r.value| == |rs| && forall i :: 0 <= i < |rs| ==> rs[i] == Ok(r.value[i])
    ensures r.Err? ==> exists i :: 0 <= i < |rs| && rs[i] == Err(r.error) && forall j :: 0 <= j < i ==> rs[j].Ok?
  {
    if |rs| == 0 then Ok([])
    else if rs[0].Err? then Err(rs[0].error)
    else
      var rest := AllShown(rs[1..]);
      assert forall i :: 1 <= i < |rs| ==> rs[1..][i - 1] == rs[i];
      match rest
      case Ok(ss) => Ok([rs[0].value] + ss)
      case Err(e) => Err(e)
  }

  /** The first member whose guard accepts `a`, as `findIndex` finds it. */
  function FirstAccepting(env: Env, members: seq<Meta>, a: J.Value): (r: Option<nat>)
    ensures r.Some? ==> r.value < |members| && env.accepts(members[r.value], a) &&
                        forall j :: 0 <= j < r.value ==> !env.accepts(members[j], a)
    ensures r.None? ==> forall j :: 0 <= j < |members| ==> !env.accepts(members[j], a)
  {
    if |members| == 0 then None
    else if env.accepts(members[0], a) then Some(0)
    else
      match FirstAccepting(env, members[1..], a)
      case Some(i) => Some(i + 1)
      case None => None
  }

  /** One `key: shown` part of a struct or index-signature rendering. */
  function Labelled(key: string, shown: Shown): (r: Shown)
    ensures r.Ok? <==> shown.Ok?
    ensures r.Ok? ==> r.value == key + ": " + shown.value
    ensures r.Err? ==> r == shown
  {
    if shown.Err? then shown else Ok(key + ": " + shown.value)
  }

  /** The text between brackets, or the first failing part's error. */
  function Bracketed(parts: Result<seq<string>, string>): (r: Shown)
    ensures parts.Ok? ==> r == Ok("[" + Join(parts.value, ", ") + "]")
    ensures parts.Err? ==> r == Err(parts.error)
  {
    if parts.Err? then Err(parts.error) else Ok("[" + Join(parts.value, ", ") + "]")
  }

  /** The text between braces, or the first failing part's error. */
  function Braced(parts: Result<seq<string>, string>): (r: Shown)
    ensures parts.Ok? ==> r == Ok("{ " + Join(parts.value, ", ") + " }")
    ensures parts.Err? ==> r == Err(parts.error)
  {
    if parts.Err? then Err(parts.error) else Ok("{ " + Join(parts.value, ", ") + " }")
  }

  /** Deriving `f(m)` succeeds. Before it shows anything, `f` derives the
      components of a tuple, the members of a union, the field values of a
      struct, the value of an index signature and the item of an array, and
      looks up the service of a constructor; the type argument of a
      constructor is derived only when a value is shown. The only step that
      fails is the lookup of a service the context does not have. */
  predicate Derivable(env: Env, m: Meta)
    decreases m
  {
    match m
    case Constructor(tag, _) => tag in env.services
    case String => true
    case Number => true
    case Boolean => true
    case Literal(_) => true
    case Tuple(components) => forall i :: 0 <= i < |components| ==> Derivable(env, components[i])
    case Union(members) => forall i :: 0 <= i < |members| ==> Derivable(env, members[i])
    case Struct(fields) => forall i :: 0 <= i < |fields| ==> Derivable(env, fields[i].value)
    case IndexSignature(value) => Derivable(env, value)
    case Array(item) => Derivable(env, item)
  }

  /** `f(dsl).show(a)`: the show `showFor(ctx)` derives for `m`, applied to
      `a`; a description that cannot be derived fails whatever `a` is. */
  function ShowFor(env: Env, m: Meta, a: J.Value): Shown
    decreases m, 1
  {
    if !Derivable(env, m) then Err("service not found")
    else match m
    case Constructor(tag, t) =>
      if !Derivable(env, t) then Err("service not found")
      else env.services[tag]((x: J.Value) => ShowFor(env, t, x), a)
    case String => Ok(env.stringify(a))
    case Number => Ok(env.stringify(a))
    case Boolean => Ok(env.stringify(a))
    case Literal(_) => Ok(env.stringify(a))
    case Tuple(components) =>
      if !a.Arr? then Err("tuple.map is not a function")
      else if |a.items| > |components| then Err("cannot read properties of undefined (reading 'show')")
      else
        Bracketed(AllShown(ComponentParts(env, components, a.items)))
    case Union(members) =>
      var index := FirstAccepting(env, members, a);
      if index.None? then Err("cannot read properties of undefined (reading 'show')")
      else ShowFor(env, members[index.value], a)
    case Struct(fields) =>
      if |fields| > 0 && (a == J.Undefined || a == J.Null) then Err("cannot read properties of " + (if a == J.Null then "null" else "undefined"))
      else
        Braced(AllShown(FieldParts(env, fields, a)))
    case IndexSignature(value) =>
      if J.OwnEntries(a).None? then Err("cannot convert undefined or null to object")
      else
        var entries := J.OwnEntries(a).value;
        Braced(AllShown(EntryParts(env, value, entries)))
    case Array(item) =>
      if !a.Arr? then Err("a.map is not a function")
      else
        Bracketed(AllShown(ItemParts(env, item, a.items)))
  }

  /** The parts of a tuple: item `i` shown by component `i`. */
  function ComponentParts(env: Env, components: seq<Meta>, items: seq<J.Value>): (r: seq<Shown>)
    requires |items| <= |components|
    ensures |r| == |items|
    decreases Tuple(components), 0
  {
    seq(|items|, i requires 0 <= i < |items| => ShowFor(env, components[i], items[i]))
  }

  /** The parts of an array: every item shown by the one item description. */
  function ItemParts(env: Env, item: Meta, items: seq<J.Value>): (r: seq<Shown>)
    ensures |r| == |items|
    decreases Array(item), 0
  {
    seq(|items|, i requires 0 <= i < |items| => ShowFor(env, item, items[i]))
  }

  /** The `key: shown` parts of a struct: one per declared field, in order,
      the value read from `a` under the field's key. */
  function FieldParts(env: Env, fields: seq<MetaField>, a: J.Value): (r: seq<Shown>)
    requires |fields| == 0 || (a != J.Undefined && a != J.Null)
    ensures |r| == |fields|
    decreases Struct(fields), 0
  {
    seq(|fields|, i requires 0 <= i < |fields| =>
      Labelled(J.KeyString(fields[i].key), ShowFor(env, fields[i].value, J.GetProp(a, fields[i].key).value)))
  }

  /** The `key: shown` parts of an index signature: one per entry, in order,
      each value shown by the one value description. */
  function EntryParts(env: Env, value: Meta, entries: seq<(string, J.Value)>): (r: seq<Shown>)
    ensures |r| == |entries|
    decreases value, 2
  {
    seq(|entries|, i requires 0 <= i < |entries| => Labelled(entries[i].0, ShowFor(env, value, entries[i].1)))
  }

  /** A description that cannot be derived shows nothing, and one that
      shows something was derived. */
  lemma UnderivableFails(env: Env, m: Meta, a: J.Value)
    ensures !Derivable(env, m) ==> ShowFor(env, m, a).Err?
    ensures ShowFor(env, m, a).Ok? ==> Derivable(env, m)
  {
  }

  /** Derivation is eager: a component, member or item whose service is
      missing makes the whole show fail, even for a value that never
      reaches it (an empty tuple or array, a union whose first member
      accepts, a constructor whose service ignores its argument). */
  lemma EagerDerivation(env: Env, a: J.Value)
    requires "T" !in env.services && "U" in env.services
    ensures ShowFor(env, Tuple([Constructor("T", String)]), J.Arr([])).Err?
    ensures ShowFor(env, Array(Constructor("T", String)), J.Arr([])).Err?
    ensures ShowFor(env, Union([String, Constructor("T", String)]), a).Err?
    ensures ShowFor(env, Constructor("U", Constructor("T", String)), a).Err?
  {
    var missing := Constructor("T", String);
    var components, members := [missing], [String, missing];
    assert components[0] == missing && members[1] == missing;
  }

  /** String, Number, Boolean and Literal all render through the same
      leaf renderer: the shown value, stringified. */
  lemma LeavesStringify(env: Env, a: J.Value, l: J.Value)
    ensures ShowFor(env, String, a) == ShowFor(env, Number, a) == ShowFor(env, Boolean, a) == Ok(env.stringify(a))
    ensures ShowFor(env, Literal(l), a) == Ok(env.stringify(a))
  {
  }

  /** A constructor shows through the context's service for its tag, which
      is given the show derived for the type argument; a tag with no
      service, or a type argument that cannot be derived, has no rendering. */
  lemma ConstructorUsesService(env: Env, tag: string, t: Meta, a: J.Value)
    ensures tag !in env.services ==> ShowFor(env, Constructor(tag, t), a).Err?
    ensures !Derivable(env, t) ==> ShowFor(env, Constructor(tag, t), a).Err?
    ensures tag in env.services && Derivable(env, t) ==>
              ShowFor(env, Constructor(tag, t), a) == env.services[tag]((x: J.Value) => ShowFor(env, t, x), a)
  {
  }

  /** A tuple value renders as its items shown by the components at the same
      positions, in order, joined by ", " between brackets; a value with more
      items than components, or that is not an array, has no rendering, and
      neither has any value when a component cannot be derived, even one
      past the value's last item. */
  lemma TupleRendering(env: Env, components: seq<Meta>, items: seq<J.Value>, shown: seq<string>)
    requires |shown| == |items| <= |components|
    requires forall i :: 0 <= i < |items| ==> ShowFor(env, components[i], items[i]) == Ok(shown[i])
    ensures Derivable(env, Tuple(components)) ==> ShowFor(env, Tuple(components), J.Arr(items)) == Ok("[" + Join(shown, ", ") + "]")
    ensures !Derivable(env, Tuple(components)) ==> ShowFor(env, Tuple(components), J.Arr(items)).Err?
  {
    var rs := ComponentParts(env, components, items);
    assert AllShown(rs).value == shown;
  }

  lemma TupleFailures(env: Env, components: seq<Meta>, a: J.Value)
    requires !a.Arr? || |a.items| > |components|
    ensures ShowFor(env, Tuple(components), a).Err?
  {
  }

  /** A union shows a value with the first member, in declaration order,
      whose guard accepts it, provided every member can be derived; when no
      guard accepts it, or some member cannot be derived, there is no
      rendering. */
  lemma UnionFirstAccepting(env: Env, members: seq<Meta>, a: J.Value, k: nat)
    requires k < |members| && env.accepts(members[k], a)
    requires forall j :: 0 <= j < k ==> !env.accepts(members[j], a)
    ensures Derivable(env, Union(members)) ==> ShowFor(env, Union(members), a) == ShowFor(env, members[k], a)
    ensures !Derivable(env, Union(members)) ==> ShowFor(env, Union(members), a).Err?
  {
    var r := FirstAccepting(env, members, a);
    assert r.Some?;
    if r.value < k {
    } else if r.value > k {
    }
  }

  lemma UnionNoneAccepting(env: Env, members: seq<Meta>, a: J.Value)
    requires forall j :: 0 <= j < |members| ==> !env.accepts(members[j], a)
    ensures ShowFor(env, Union(members), a).Err?
  {
  }

  /** An array renders exactly as a tuple with as many components as the
      value has items, each the item description, when the item can be
      derived; otherwise no array renders, not even the empty one. */
  lemma ArrayIsRepeatedTuple(env: Env, item: Meta, items: seq<J.Value>)
    ensures Derivable(env, item) ==>
              ShowFor(env, Array(item), J.Arr(items)) == ShowFor(env, Tuple(seq(|items|, _ => item)), J.Arr(items))
    ensures !Derivable(env, item) ==> ShowFor(env, Array(item), J.Arr(items)).Err?
  {
    if Derivable(env, item) {
      RepeatedTupleShows(env, item, items);
    }
  }

  lemma RepeatedTupleShows(env: Env, item: Meta, items: seq<J.Value>)
    requires Derivable(env, item)
    ensures ShowFor(env, Array(item), J.Arr(items)) == ShowFor(env, Tuple(seq(|items|, _ => item)), J.Arr(items))
  {
    var components := seq(|items|, _ => item);
    assert forall i :: 0 <= i < |components| ==> components[i] == item;
    assert Derivable(env, Tuple(components));
    assert ItemParts(env, item, items) == ComponentParts(env, components, items);
    ArrayShows(env, item, items);
    TupleShows(env, components, items);
  }

  lemma TupleShows(env: Env, components: seq<Meta>, items: seq<J.Value>)
    requires Derivable(env, Tuple(components)) && |items| <= |components|
    ensures ShowFor(env, Tuple(components), J.Arr(items)) == Bracketed(AllShown(ComponentParts(env, components, items)))
  {
  }

  lemma ArrayShows(env: Env, item: Meta, items: seq<J.Value>)
    requires Derivable(env, item)
    ensures ShowFor(env, Array(item), J.Arr(items)) == Bracketed(AllShown(ItemParts(env, item, items)))
  {
  }

  /** The struct fields an index signature stands for on the object `ps`:
      one per string key, in order, each with the value description. */
  function KeyFields(value: Meta, ps: J.Props<J.Value>): (fields: seq<MetaField>)
    ensures |fields| == |J.StringKeyed(ps)|
    ensures forall i :: 0 <= i < |fields| ==> fields[i] == MetaField(J.StringKeyed(ps)[i].0, value)
  {
    var keyed := J.StringKeyed(ps);
    seq(|keyed|, i requires 0 <= i < |keyed| => MetaField(keyed[i].0, value))
  }

  /** On a plain object, an index signature renders exactly as the struct
      whose fields are the object's string keys, in order, each with the
      index signature's value description, when that description can be
      derived; otherwise no object renders, not even the empty one. */
  lemma IndexSignatureIsStruct(env: Env, value: Meta, ps: J.Props<J.Value>)
    requires J.DistinctKeys(ps)
    ensures Derivable(env, value) ==>
              ShowFor(env, IndexSignature(value), J.Obj(ps)) == ShowFor(env, Struct(KeyFields(value, ps)), J.Obj(ps))
    ensures !Derivable(env, value) ==> ShowFor(env, IndexSignature(value), J.Obj(ps)).Err?
  {
    if Derivable(env, value) {
      var a := J.Obj(ps);
      var fields := KeyFields(value, ps);
      IndexPartsAgree(env, value, ps);
      KeyFieldsDerivable(env, value, ps);
      IndexSignatureShows(env, value, a);
      StructShows(env, fields, a);
    }
  }

  lemma IndexSignatureShows(env: Env, value: Meta, a: J.Value)
    requires Derivable(env, value) && J.OwnEntries(a).Some?
    ensures ShowFor(env, IndexSignature(value), a) == Braced(AllShown(EntryParts(env, value, J.OwnEntries(a).value)))
  {
  }

  lemma StructShows(env: Env, fields: seq<MetaField>, a: J.Value)
    requires Derivable(env, Struct(fields)) && (|fields| == 0 || (a != J.Undefined && a != J.Null))
    ensures ShowFor(env, Struct(fields), a) == Braced(AllShown(FieldParts(env, fields, a)))
  {
  }

  lemma KeyFieldsDerivable(env: Env, value: Meta, ps: J.Props<J.Value>)
    requires Derivable(env, value)
    ensures Derivable(env, Struct(KeyFields(value, ps)))
  {
  }

  lemma IndexPartsAgree(env: Env, value: Meta, ps: J.Props<J.Value>)
    requires J.DistinctKeys(ps)
    ensures EntryParts(env, value, J.OwnEntries(J.Obj(ps)).value) == FieldParts(env, KeyFields(value, ps), J.Obj(ps))
  {
    var a := J.Obj(ps);
    var keyed := J.StringKeyed(ps);
    var fields := KeyFields(value, ps);
    var entries := J.OwnEntries(a).value;
    var lhs := EntryParts(env, value, entries);
    var rhs := FieldParts(env, fields, a);
    forall i | 0 <= i < |keyed| ensures lhs[i] == rhs[i] {
      var j :| 0 <= j < |ps| && ps[j] == keyed[i];
      J.LookupDistinct(ps, j);
      assert J.GetProp(a, fields[i].key).value == entries[i].1;
      assert J.KeyString(fields[i].key) == entries[i].0;
    }
  }

  /** A struct renders one `key: shown` part per declared field, in field
      order, the value read from the object under that key; the struct
      with no fields renders as "{  }". */
  lemma StructRendering(env: Env, fields: seq<MetaField>, a: J.Value, shown: seq<string>)
    requires |fields| == 0 || (a != J.Undefined && a != J.Null)
    requires |shown| == |fields|
    requires forall i :: 0 <= i < |fields| ==> ShowFor(env, fields[i].value, J.GetProp(a, fields[i].key).value) == Ok(shown[i])
    ensures ShowFor(env, Struct(fields), a) ==
            Ok("{ " + Join(seq(|fields|, i requires 0 <= i < |fields| => J.KeyString(fields[i].key) + ": " + shown[i]), ", ") + " }")
    ensures |fields| == 0 ==> ShowFor(env, Struct(fields), a) == Ok("{  }")
  {
    FieldsShownDerivable(env, fields, a, shown);
    StructShows(env, fields, a);
    FieldPartsShown(env, fields, a, shown);
    if |fields| == 0 {
      assert Join([], ", ") == "";
      assert "{ " + "" + " }" == "{  }";
    }
  }

  lemma FieldsShownDerivable(env: Env, fields: seq<MetaField>, a: J.Value, shown: seq<string>)
    requires |fields| == 0 || (a != J.Undefined && a != J.Null)
    requires |shown| == |fields|
    requires forall i :: 0 <= i < |fields| ==> ShowFor(env, fields[i].value, J.GetProp(a, fields[i].key).value) == Ok(shown[i])
    ensures Derivable(env, Struct(fields))
  {
    forall i | 0 <= i < |fields| ensures Derivable(env, fields[i].value) {
      UnderivableFails(env, fields[i].value, J.GetProp(a, fields[i].key).value);
    }
  }

  lemma FieldPartsShown(env: Env, fields: seq<MetaField>, a: J.Value, shown: seq<string>)
    requires |fields| == 0 || (a != J.Undefined && a != J.Null)
    requires |shown| == |fields|
    requires forall i :: 0 <= i < |fields| ==> ShowFor(env, fields[i].value, J.GetProp(a, fields[i].key).value) == Ok(shown[i])
    ensures AllShown(FieldParts(env, fields, a)) == Ok(seq(|fields|, i requires 0 <= i < |fields| => J.KeyString(fields[i].key) + ": " + shown[i]))
  {
    var rs := FieldParts(env, fields, a);
    assert AllShown(rs).value == seq(|fields|, i requires 0 <= i < |fields| => J.KeyString(fields[i].key) + ": " + shown[i]);
  }

  /** Showing a struct reads one property of the value per field, so with
      a field `null` and `undefined` have no rendering, and with no field
      nothing is read and both render as "{  }". */
  lemma StructOfNothing(env: Env, fields: seq<MetaField>)
    ensures |fields| > 0 ==> ShowFor(env, Struct(fields), J.Null).Err? && ShowFor(env, Struct(fields), J.Undefined).Err?
    ensures |fields| == 0 ==> ShowFor(env, Struct(fields), J.Null) == Ok("{  }") && ShowFor(env, Struct(fields), J.Undefined) == Ok("{  }")
  {
    if |fields| == 0 {
      StructRendering(env, fields, J.Null, []);
      StructRendering(env, fields, J.Undefined, []);
    }
  }
}
