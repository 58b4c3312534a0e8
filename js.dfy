/** JavaScript values as the handlers see them (request bodies, upstream JSON,
    the objects they build), and the JavaScript operators the handlers use. */
module Js {
  import opened Strings

  /** A JavaScript value. Numbers are reals: NaN and the infinities are not
      values of this type (parseFloat's NaN is an Option's None instead). */
  datatype Value =
    | Undefined
    | Null
    | Bool(b: bool)
    | Num(n: real)
    | Str(s: string)
    | Arr(items: seq<Value>)
    | Obj(fields: map<string, Value>)

  /** The values ToBoolean maps to false (NaN is not a `Value`, and -0 is 0). */
  const FalsyValues: set<Value> := {Undefined, Null, Bool(false), Num(0.0), Str("")}

  /** ToBoolean: exactly the five falsy values are falsy; every array and
      every object, even an empty one, is truthy. */
  function Truthy(v: Value): (t: bool)
    ensures t <==> v !in FalsyValues
  {
    match v
    case Undefined => false
    case Null => false
    case Bool(b) => b
    case Num(n) => n != 0.0
    case Str(s) => s != ""
    case Arr(_) => true
    case Obj(_) => true
  }

  /** A settled promise: the value it resolved to, or the message of the
      error it rejected with. */
  datatype Settled<T> = Resolved(value: T) | Rejected(message: string)

  /** `Promise.all` over promises that have all settled: the values in
      order when every one resolved, otherwise the first rejection in
      array order. */
  function All<T>(settled: seq<Settled<T>>): (r: Settled<seq<T>>)
    ensures r.Resolved? <==> forall i :: 0 <= i < |settled| ==> settled[i].Resolved?
    ensures r.Resolved? ==>
      |r.value| == |settled| && forall i :: 0 <= i < |settled| ==> r.value[i] == settled[i].value
    ensures r.Rejected? ==>
      exists i :: 0 <= i < |settled| && settled[i] == Rejected(r.message)
                  && (forall j :: 0 <= j < i ==> settled[j].Resolved?)
  {
    if settled == [] then Resolved([])
    else
      match settled[0]
      case Rejected(message) => Rejected(message)
      case Resolved(first) =>
        match All(settled[1..])
        case Rejected(message) =>
          assert forall i :: 1 <= i < |settled| ==> settled[i] == settled[1..][i - 1];
          Rejected(message)
        case Resolved(rest) =>
          assert forall i :: 1 <= i < |settled| ==> settled[i] == settled[1..][i - 1];
          Resolved([first] + rest)
  }

  /** `a || b`: the first operand when it is truthy, the second otherwise. */
  function Or(a: Value, b: Value): (r: Value)
    ensures r == a || r == b
    ensures Truthy(r) <==> Truthy(a) || Truthy(b)
    ensures Truthy(a) ==> r == a
  {
    if Truthy(a) then a else b
  }

  /** `obj.key` on a plain object: the own field, or undefined when it is absent. */
  function Field(fields: map<string, Value>, key: string): (r: Value)
  {
    if key in fields then fields[key] else Undefined
  }

  /** Object destructuring (`const { key } = v`) throws a TypeError on
      undefined and null, and reads a property of anything else. */
  predicate Destructurable(v: Value) {
    !v.Undefined? && !v.Null?
  }

  /** The property `key` that destructuring reads from `v`. Only own fields of
      objects are modelled: booleans, numbers, strings and arrays have none of
      the property names the handlers read. */
  function Member(v: Value, key: string): (r: Value)
    requires Destructurable(v)
    ensures !v.Obj? ==> r == Undefined
    ensures v.Obj? ==> r == Field(v.fields, key)
  {
    match v
    case Obj(fields) => Field(fields, key)
    case _ => Undefined
  }

  /** Node's (V8's) message for destructuring `key` out of the undefined or
      null value written `source` in the program. */
  function DestructureMessage(v: Value, key: string, source: string): (m: string)
    requires !Destructurable(v)
    ensures StartsWith(m, "Cannot destructure property '" + key + "' of '" + source + "'")
    ensures EndsWith(m, if v.Undefined? then " as it is undefined." else " as it is null.")
  {
    var head := "Cannot destructure property '" + key + "' of '" + source + "'";
    var tail := if v.Undefined? then " as it is undefined." else " as it is null.";
    assert (head + tail)[..|head|] == head;
    assert (head + tail)[|head + tail| - |tail|..] == tail;
    head + tail
  }

  /** Whether ToString of a value parsed from JSON throws a TypeError, as
      `parseFloat(v)` and `encodeURIComponent(v)` do first. An object with an
      own `toString` field has no callable `toString` (JSON holds no
      functions) and its inherited `valueOf` gives back the object, so
      ToPrimitive fails; any other object prints as "[object Object]". An
      array is joined, so it throws when one of its elements does. Primitives
      never throw. */
  predicate ToStringThrows(v: Value)
    ensures ToStringThrows(v) ==> v.Obj? || v.Arr?
  {
    match v
    case Obj(fields) => "toString" in fields
    case Arr(items) => exists i :: 0 <= i < |items| && ToStringThrows(items[i])
    case _ => false
  }

  /** V8's message when ToPrimitive finds no method giving a primitive. */
  const ToPrimitiveMessage := "Cannot convert object to primitive value"

}
