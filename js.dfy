/**
 * JavaScript values as the browser code sees them, with the language rules
 * the components rely on: truthiness, `||`, property reads (which throw a
 * TypeError on `null` and `undefined`), optional chaining and `String(v)`.
 * Numbers are integers here.
 */
module Js {
  import opened Wrappers
  import Decimal

  datatype Value =
    | Undefined
    | Null
    | Bool(b: bool)
    | Num(n: int)
    | Str(s: string)
    | Arr(items: seq<Value>)
    | Obj(fields: map<string, Value>)

  /** `undefined`, `null`, `false`, `0` and `""` are falsy; every array and object is truthy. */
  predicate Truthy(v: Value)
    ensures !Truthy(v) <==> v in {Undefined, Null, Bool(false), Num(0), Str("")}
  {
    match v
    case Undefined => false
    case Null => false
    case Bool(b) => b
    case Num(n) => n != 0
    case Str(s) => s != ""
    case Arr(_) => true
    case Obj(_) => true
  }

  predicate Nullish(v: Value) {
    v.Undefined? || v.Null?
  }

  /** `a || b`: the first operand when it is truthy, the second otherwise. */
  function Or(a: Value, b: Value): (r: Value)
    ensures Truthy(a) ==> r == a
    ensures !Truthy(a) ==> r == b
    ensures Truthy(r) <==> Truthy(a) || Truthy(b)
  {
    if Truthy(a) then a else b
  }

  /**
   * The property `k` of a value that is not nullish: an object's own field,
   * and `undefined` when the object lacks it or the value is a primitive or
   * an array (the inherited built-in properties are not modelled).
   */
  function Prop(v: Value, k: string): (r: Value)
    ensures !v.Obj? ==> r == Undefined
    ensures v.Obj? && k in v.fields ==> r == v.fields[k]
    ensures v.Obj? && k !in v.fields ==> r == Undefined
  {
    match v
    case Obj(f) => if k in f then f[k] else Undefined
    case _ => Undefined
  }

  /** `v.k`: `None` stands for the TypeError thrown on `null` and `undefined`. */
  function Member(v: Value, k: string): (r: Option<Value>)
    ensures r.None? <==> Nullish(v)
    ensures r.Some? ==> r.value == Prop(v, k)
  {
    if Nullish(v) then None else Some(Prop(v, k))
  }

  /** `v?.k`: `undefined` on a nullish value instead of a TypeError. */
  function OptMember(v: Value, k: string): (r: Value)
    ensures Nullish(v) ==> r == Undefined
    ensures Member(v, k).Some? ==> r == Member(v, k).value
  {
    if Nullish(v) then Undefined else Prop(v, k)
  }

  /**
   * `String(v)`. An array is its elements joined with ",", where `null` and
   * `undefined` elements become the empty string; every object is
   * "[object Object]".
   */
  function ToJsString(v: Value): (s: string)
    ensures Truthy(v) && !v.Arr? ==> s != ""
    ensures v.Str? ==> s == v.s
    decreases v, 1
  {
    match v
    case Undefined => "undefined"
    case Null => "null"
    case Bool(b) => if b then "true" else "false"
    case Num(n) => Decimal.IntToString(n)
    case Str(s) => s
    case Arr(items) => Join(v, items)
    case Obj(_) => "[object Object]"
  }

  /** The elements of the array `whole` joined with ",". */
  function Join(whole: Value, items: seq<Value>): (s: string)
    requires forall x | x in items :: x < whole
    ensures items == [] ==> s == ""
    ensures |items| == 1 ==> s == (if Nullish(items[0]) then "" else assert items[0] in items; ToJsString(items[0]))
    ensures |s| >= |items| - 1
    decreases whole, 0, |items|
  {
    if items == [] then ""
    else
      var x := items[0];
      assert x in items;
      assert forall y | y in items[1..] :: y in items;
      var first := if Nullish(x) then "" else ToJsString(x);
      if |items| == 1 then first else first + "," + Join(whole, items[1..])
  }

  /**
   * `a === b`. Primitives compare by value; arrays and objects compare by
   * identity in JavaScript, which this model of values cannot see, so two
   * equal arrays or objects count as the same one.
   */
  predicate StrictEquals(a: Value, b: Value)
    ensures StrictEquals(a, b) ==> SameKind(a, b)
    ensures a.Str? && b.Str? ==> (StrictEquals(a, b) <==> a.s == b.s)
    ensures a.Num? && b.Num? ==> (StrictEquals(a, b) <==> a.n == b.n)
    ensures Nullish(a) && Nullish(b) ==> (StrictEquals(a, b) <==> a == b)
  {
    a == b
  }

  /** The two values have the same type (`typeof`, with `null` apart). */
  predicate SameKind(a: Value, b: Value) {
    match (a, b)
    case (Undefined, Undefined) => true
    case (Null, Null) => true
    case (Bool(_), Bool(_)) => true
    case (Num(_), Num(_)) => true
    case (Str(_), Str(_)) => true
    case (Arr(_), Arr(_)) => true
    case (Obj(_), Obj(_)) => true
    case _ => false
  }
}
