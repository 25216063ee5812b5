/** src/data/Json.ts: the guard that recognises JSON values at run time and
    the decoders built on it. */
module Json {
  import opened Wrappers
  import opened JsValues
  import opened Common

  /** `Guard.is(u)`: null, any string, any number (NaN and the infinities
      included), any boolean, an array of accepted values, or an object
      whose every value under an `Object.keys` key is accepted. For an
      array, the keys `Object.keys` lists are its indices, so both tests
      agree there. */
  predicate Guard(u: Value)
    decreases u, 1
  {
    || u == Null
    || TypeOf(u) == "string"
    || TypeOf(u) == "number"
    || TypeOf(u) == "boolean"
    || (IsArray(u) && forall i :: 0 <= i < |u.items| ==> Guard(u.items[i]))
    || (TypeOf(u) == "object" && KeysAccepted(u))
  }

  /** `Object.keys(u).every((key) => Guard.is(u[key]))` for an object or an array. */
  predicate KeysAccepted(u: Value)
    requires TypeOf(u) == "object"
    decreases u, 0
  {
    match u
    case Null => false
    case Arr(items) => forall i :: 0 <= i < |items| ==> Guard(items[i])
    case Obj(ps) => forall i :: 0 <= i < |ps| && ps[i].0.StrKey? ==> Guard(ps[i].1)
  }

  /** `KeysAccepted` is the `Object.keys` test: every value `Object.keys`
      pairs with a key is accepted. */
  lemma KeysAcceptedByEntries(u: Value)
    requires TypeOf(u) == "object" && u != Null
    ensures KeysAccepted(u) <==> forall i :: 0 <= i < |OwnEntries(u).value| ==> Guard(OwnEntries(u).value[i].1)
  {
    if u.Obj? {
      ObjectEntriesAccepted(u.props);
    } else {
      var es := OwnEntries(u).value;
      assert |es| == |u.items| && forall i :: 0 <= i < |es| ==> es[i].1 == u.items[i];
    }
  }

  /** On an object, the values `Object.keys` pairs with its keys are exactly
      the string-keyed values. */
  lemma ObjectEntriesAccepted(ps: Props<Value>)
    ensures (forall i :: 0 <= i < |ps| && ps[i].0.StrKey? ==> Guard(ps[i].1))
        <==> forall i :: 0 <= i < |OwnEntries(Obj(ps)).value| ==> Guard(OwnEntries(Obj(ps)).value[i].1)
  {
    var sk := StringKeyed(ps);
    var es := OwnEntries(Obj(ps)).value;
    assert |es| == |sk| && forall i :: 0 <= i < |es| ==> es[i].1 == sk[i].1;
    if forall i :: 0 <= i < |ps| && ps[i].0.StrKey? ==> Guard(ps[i].1) {
      forall i | 0 <= i < |sk| ensures Guard(sk[i].1) {
        var j :| 0 <= j < |ps| && ps[j] == sk[i];
      }
    } else {
      var j :| 0 <= j < |ps| && ps[j].0.StrKey? && !Guard(ps[j].1);
      StringKeyedComplete(ps, j);
      var i :| 0 <= i < |sk| && sk[i] == ps[j];
      assert !Guard(es[i].1);
    }
  }

  /** Every string-keyed property appears among the string-keyed ones. */
  lemma {:induction false} StringKeyedComplete<V>(ps: Props<V>, j: nat)
    requires j < |ps| && ps[j].0.StrKey?
    ensures ps[j] in StringKeyed(ps)
  {
    if j > 0 {
      StringKeyedComplete(ps[1..], j - 1);
    }
  }

  /** What the guard accepts, kind by kind. */
  lemma GuardKinds(u: Value)
    ensures u.Null? || u.Str? || u.Num? || u.Bool? ==> Guard(u)
    ensures u.Arr? ==> (Guard(u) <==> forall i :: 0 <= i < |u.items| ==> Guard(u.items[i]))
    ensures u.Obj? ==> (Guard(u) <==> forall i :: 0 <= i < |u.props| && u.props[i].0.StrKey? ==> Guard(u.props[i].1))
    ensures u.Undefined? || u.BigInt? || u.Sym? || u.Func? ==> !Guard(u)
  {
  }

  /** Every value `isJson` accepts passes the guard. */
  lemma {:induction false} IsJsonGuarded(u: Value)
    requires IsJson(u)
    ensures Guard(u)
    decreases u
  {
    match u
    case Arr(items) =>
      assert IsJsonArray(u);
      forall i | 0 <= i < |items| ensures Guard(items[i]) {
        IsJsonGuarded(items[i]);
      }
    case Obj(ps) =>
      assert IsJsonObject(u);
      forall i | 0 <= i < |ps| && ps[i].0.StrKey? ensures Guard(ps[i].1) {
        IsJsonGuarded(ps[i].1);
      }
      assert KeysAccepted(u);
    case _ =>
      assert u.Null? || TypeOf(u) == "string" || TypeOf(u) == "number" || TypeOf(u) == "boolean";
  }

  /** The converse does not hold: the guard accepts NaN and the
      infinities, which `isJson` rejects. */
  lemma GuardAcceptsNonFinite()
    ensures Guard(Num(NaN)) && !IsJson(Num(NaN))
    ensures Guard(Num(Infinity(true))) && !IsJson(Num(Infinity(true)))
    ensures Guard(Arr([Num(NaN)])) && !IsJson(Arr([Num(NaN)]))
  {
    assert !IsJson(Num(NaN));
    assert !IsJsonArray(Arr([Num(NaN)])) by {
      assert !IsJson([Num(NaN)][0]);
    }
  }

  /** A JSON document. */
  datatype Document =
    | JNull
    | JBool(b: bool)
    | JNumber(r: real)
    | JString(s: string)
    | JArray(elements: seq<Document>)
    | JObject(members: seq<(string, Document)>)

  /** The run-time value a parsed document is. */
  function ToValue(d: Document): (v: Value)
    ensures d.JArray? ==> v.Arr? && |v.items| == |d.elements|
    ensures d.JObject? ==> v.Obj? && |v.props| == |d.members|
  {
    match d
    case JNull => Null
    case JBool(b) => Bool(b)
    case JNumber(r) => Num(Finite(r))
    case JString(s) => Str(s)
    case JArray(es) => Arr(seq(|es|, i requires 0 <= i < |es| => ToValue(es[i])))
    case JObject(ms) => Obj(seq(|ms|, i requires 0 <= i < |ms| => (StrKey(ms[i].0), ToValue(ms[i].1))))
  }

  /** Every JSON document passes the guard and `isJson`. */
  lemma {:induction false} DocumentsAreJson(d: Document)
    ensures Guard(ToValue(d)) && IsJson(ToValue(d))
    decreases d
  {
    match d
    case JArray(es) =>
      var v := ToValue(d);
      forall i | 0 <= i < |es| ensures Guard(v.items[i]) && IsJson(v.items[i]) {
        DocumentsAreJson(es[i]);
      }
    case JObject(ms) =>
      var v := ToValue(d);
      forall i | 0 <= i < |ms| ensures Guard(v.props[i].1) && IsJson(v.props[i].1) {
        DocumentsAreJson(ms[i].1);
      }
    case _ =>
  }

  /** `Decoder.decode(u)`: the input itself when the guard accepts it,
      otherwise a "Json" type error. */
  function Decoder(u: Value): (r: Validated<Value>)
    ensures WellFormed(r) && !IsWarning(r)
    ensures IsSuccess(r) <==> Guard(u)
    ensures IsSuccess(r) ==> ValueOf(r) == Some(u)
    ensures IsFailure(r) ==> Errors(r) == [NotType("Json", u)]
  {
    if Guard(u) then Success(u) else Failure(NotType("Json", u))
  }

  /** `JsonArrayDecoder.decode(json)`: the input itself when it is an
      array, otherwise an "Array" type error. */
  function JsonArrayDecoder(json: Value): (r: Validated<Value>)
    ensures WellFormed(r) && !IsWarning(r)
    ensures IsSuccess(r) <==> json.Arr?
    ensures IsSuccess(r) ==> ValueOf(r) == Some(json)
    ensures IsFailure(r) ==> Errors(r) == [NotType("Array", json)]
  {
    if IsArray(json) then Success(json) else Failure(NotType("Array", json))
  }

  /** `JsonObjectDecoder.decode(json)`: the input itself when it is a
      non-null, non-array object, otherwise an "Object" type error. */
  function JsonObjectDecoder(json: Value): (r: Validated<Value>)
    ensures WellFormed(r) && !IsWarning(r)
    ensures IsSuccess(r) <==> IsUnknownObject(json)
    ensures IsSuccess(r) ==> ValueOf(r) == Some(json)
    ensures IsFailure(r) ==> Errors(r) == [NotType("Object", json)]
  {
    if TypeOf(json) == "object" && json != Null && !IsArray(json) then Success(json)
    else Failure(NotType("Object", json))
  }

  /** A JSON value is null, a scalar, or a composite; for every composite
      exactly one of the array and object decoders succeeds, and for the
      others neither does. */
  lemma DecodersPartition(json: Value)
    requires Guard(json)
    ensures json == Null || json.Str? || json.Num? || json.Bool? || json.Arr? || json.Obj?
    ensures json.Arr? || json.Obj? ==> IsSuccess(JsonArrayDecoder(json)) != IsSuccess(JsonObjectDecoder(json))
    ensures !(json.Arr? || json.Obj?) ==> IsFailure(JsonArrayDecoder(json)) && IsFailure(JsonObjectDecoder(json))
  {
  }
}
