/** The JavaScript values the schema library inspects at run time: numbers
    with NaN and the infinities, property keys, arrays and plain objects, and
    the few built-in operations the core calls on them (`typeof`,
    `Array.isArray`, the relational operators, `Number.isInteger`, property
    reads, `Object.keys`, `String(i)` for an index). */
module JsValues {
  import opened Wrappers

  /** A JavaScript number: a finite value, NaN, or an infinity.
      The sign of zero is not distinguished. */
  datatype Number = Finite(r: real) | NaN | Infinity(positive: bool)

  /** `a < b` on two numbers; every comparison that involves NaN is false. */
  predicate Less(a: Number, b: Number)
  {
    match (a, b)
    case (Finite(x), Finite(y)) => x < y
    case (Infinity(p), Infinity(q)) => !p && q
    case (Infinity(p), Finite(_)) => !p
    case (Finite(_), Infinity(q)) => q
    case _ => false
  }

  /** `a <= b`: false when either side is NaN, otherwise `!(b < a)`. */
  predicate LessOrEqual(a: Number, b: Number)
  {
    !a.NaN? && !b.NaN? && !Less(b, a)
  }

  /** `a > b` */
  predicate Greater(a: Number, b: Number)
  {
    Less(b, a)
  }

  /** `a >= b` */
  predicate GreaterOrEqual(a: Number, b: Number)
  {
    LessOrEqual(b, a)
  }

  /** `Number.isInteger(n)` */
  predicate IsInteger(n: Number)
  {
    n.Finite? && n.r.Floor as real == n.r
  }

  /** `<` is a strict order on the numbers other than NaN, and `<=` is `<` or equality. */
  lemma NumberOrder(a: Number, b: Number, c: Number)
    ensures !Less(a, a)
    ensures Less(a, b) ==> !Less(b, a)
    ensures Less(a, b) && Less(b, c) ==> Less(a, c)
    ensures LessOrEqual(a, b) <==> Less(a, b) || (a == b && !a.NaN?)
    ensures !a.NaN? && !b.NaN? ==> Less(a, b) || a == b || Less(b, a)
  {
  }

  /** A property key: a string or a symbol. A symbol is identified by the
      key it is registered under, as with `Symbol.for`. */
  datatype Key = StrKey(name: string) | SymKey(description: string)

  /** A JavaScript value. An object is the sequence of its own enumerable
      properties in enumeration order; its keys are distinct. */
  datatype Value =
    | Undefined
    | Null
    | Bool(b: bool)
    | Num(n: Number)
    | Str(s: string)
    | BigInt(i: int)
    | Sym(symbol: string)
    | Arr(items: seq<Value>)
    | Obj(props: seq<(Key, Value)>)
    | Func(name: string)

  /** The own properties of an object, in enumeration order. */
  type Props<V> = seq<(Key, V)>

  /** `typeof v` */
  function TypeOf(v: Value): string
  {
    match v
    case Undefined => "undefined"
    case Null => "object"
    case Bool(_) => "boolean"
    case Num(_) => "number"
    case Str(_) => "string"
    case BigInt(_) => "bigint"
    case Sym(_) => "symbol"
    case Arr(_) => "object"
    case Obj(_) => "object"
    case Func(_) => "function"
  }

  /** `Array.isArray(v)` */
  predicate IsArray(v: Value)
  {
    v.Arr?
  }

  ghost predicate HasKey<V>(ps: Props<V>, k: Key)
  {
    exists i :: 0 <= i < |ps| && ps[i].0 == k
  }

  ghost predicate DistinctKeys<V>(ps: Props<V>)
  {
    forall i, j :: 0 <= i < j < |ps| ==> ps[i].0 != ps[j].0
  }

  function Keys<V>(ps: Props<V>): (ks: seq<Key>)
    ensures |ks| == |ps|
    ensures forall i :: 0 <= i < |ps| ==> ks[i] == ps[i].0
  {
    seq(|ps|, i requires 0 <= i < |ps| => ps[i].0)
  }

  /** The value stored under `k`, if `k` is an own key. */
  function Lookup<V>(ps: Props<V>, k: Key): (r: Option<V>)
    ensures r.Some? <==> HasKey(ps, k)
    ensures r.Some? ==> exists i :: 0 <= i < |ps| && ps[i].0 == k && ps[i].1 == r.value &&
                                    forall j :: 0 <= j < i ==> ps[j].0 != k
  {
    if |ps| == 0 then None
    else if ps[0].0 == k then Some(ps[0].1)
    else
      var r := Lookup(ps[1..], k);
      assert forall i :: 1 <= i < |ps| ==> ps[1..][i - 1] == ps[i];
      r
  }

  lemma LookupDistinct<V>(ps: Props<V>, i: nat)
    requires DistinctKeys(ps) && i < |ps|
    ensures Lookup(ps, ps[i].0) == Some(ps[i].1)
  {
  }

  /** The string-keyed properties, in order (what `Object.keys` enumerates). */
  function StringKeyed<V>(ps: Props<V>): (r: Props<V>)
    ensures forall i :: 0 <= i < |r| ==> r[i].0.StrKey? && r[i] in ps
  {
    if |ps| == 0 then []
    else if ps[0].0.StrKey? then [ps[0]] + StringKeyed(ps[1..])
    else StringKeyed(ps[1..])
  }

  /** The symbol-keyed properties, in order (what `Object.getOwnPropertySymbols` enumerates). */
  function SymbolKeyed<V>(ps: Props<V>): (r: Props<V>)
    ensures forall i :: 0 <= i < |r| ==> r[i].0.SymKey? && r[i] in ps
  {
    if |ps| == 0 then []
    else if ps[0].0.SymKey? then [ps[0]] + SymbolKeyed(ps[1..])
    else SymbolKeyed(ps[1..])
  }

  function DigitChar(d: nat): char
    requires d < 10
  {
    ('0' as int + d) as char
  }

  /** `String(n)` for a natural number: its decimal digits. */
  function IndexString(n: nat): string
  {
    if n < 10 then [DigitChar(n)] else IndexString(n / 10) + [DigitChar(n % 10)]
  }

  predicate IsDigit(c: char)
  {
    '0' <= c <= '9'
  }

  function DigitsValue(s: string): nat
    requires forall i :: 0 <= i < |s| ==> IsDigit(s[i])
  {
    if |s| == 0 then 0
    else
      assert IsDigit(s[|s| - 1]);
      DigitsValue(s[..|s| - 1]) * 10 + (s[|s| - 1] as int - '0' as int)
  }

  /** The array index a string key denotes: decimal digits without a leading zero. */
  function ParseIndex(s: string): Option<nat>
  {
    if |s| > 0 && (forall i :: 0 <= i < |s| ==> IsDigit(s[i])) && (s[0] != '0' || |s| == 1)
    then Some(DigitsValue(s))
    else None
  }

  lemma {:induction false} IndexStringShape(n: nat)
    ensures |IndexString(n)| > 0
    ensures forall i :: 0 <= i < |IndexString(n)| ==> IsDigit(IndexString(n)[i])
    ensures IndexString(n)[0] == '0' <==> n == 0
    ensures DigitsValue(IndexString(n)) == n
  {
    if n >= 10 {
      IndexStringShape(n / 10);
      var s := IndexString(n / 10);
      var t := IndexString(n);
      assert t == s + [DigitChar(n % 10)];
      assert t[..|t| - 1] == s;
      assert t[0] == s[0];
    }
  }

  /** `String(i)` names index `i` and nothing else: parsing it gives `i` back. */
  lemma ParseIndexString(n: nat)
    ensures ParseIndex(IndexString(n)) == Some(n)
  {
    IndexStringShape(n);
  }

  lemma IndexStringInjective(i: nat, j: nat)
    requires IndexString(i) == IndexString(j)
    ensures i == j
  {
    ParseIndexString(i);
    ParseIndexString(j);
  }

  /** The index a property key denotes, if it is an array index. */
  function KeyIndex(k: Key): Option<nat>
  {
    if k.StrKey? then ParseIndex(k.name) else None
  }

  /** Reading `v[k]`. None: reading a property of `undefined` or `null`
      throws a TypeError. Arrays and strings expose their elements under
      their index keys; other built-in properties (`length`, methods) are not
      modelled and read as `undefined`. */
  function GetProp(v: Value, k: Key): (r: Option<Value>)
    ensures r.None? <==> v == Undefined || v == Null
  {
    match v
    case Undefined => None
    case Null => None
    case Obj(ps) => Some(match Lookup(ps, k) case Some(x) => x case None => Undefined)
    case Arr(items) =>
      Some(match KeyIndex(k) case Some(i) => (if i < |items| then items[i] else Undefined) case None => Undefined)
    case Str(s) =>
      Some(match KeyIndex(k) case Some(i) => (if i < |s| then Str([s[i]]) else Undefined) case None => Undefined)
    case _ => Some(Undefined)
  }

  /** `Object.keys(v).map((key) => [key, v[key]])`: the own enumerable
      string-keyed properties with their values, in order. None:
      `Object.keys` throws on `undefined` and `null`. */
  function OwnEntries(v: Value): Option<seq<(string, Value)>>
  {
    match v
    case Undefined => None
    case Null => None
    case Obj(ps) =>
      var sk := StringKeyed(ps);
      Some(seq(|sk|, i requires 0 <= i < |sk| => (sk[i].0.name, sk[i].1)))
    case Arr(items) => Some(seq(|items|, i requires 0 <= i < |items| => (IndexString(i), items[i])))
    case Str(s) => Some(seq(|s|, i requires 0 <= i < |s| => (IndexString(i), Str([s[i]]))))
    case _ => Some([])
  }

  /** `String(k)` for a property key. */
  function KeyString(k: Key): string
  {
    match k
    case StrKey(name) => name
    case SymKey(d) => "Symbol(" + d + ")"
  }
}
