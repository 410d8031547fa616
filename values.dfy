/**
 * The JavaScript values that the validation library inspects: the schema objects
 * it compiles and the candidate values it validates.
 *
 * Objects keep their own key order (the order in which `keys` enumerates them),
 * since that order decides the order of the compiled validators. Property access
 * and `keys` follow JavaScript: a missing property reads as `undefined`, and the
 * first binding of a key is the one that is read.
 */
module Values {

  datatype Value =
    | Undefined
    | Null
    | Bool(b: bool)
    | Num(n: int)
    | Str(s: string)
    | Arr(elems: seq<Value>)
    | DateObj(time: int)
    | Obj(fields: seq<(string, Value)>)
    | Fn(id: nat)   // a function value; `id` names the (opaque) user code

  /** JavaScript truthiness (`!!v`). */
  predicate Truthy(v: Value) {
    match v
    case Undefined => false
    case Null => false
    case Bool(b) => b
    case Num(n) => n != 0
    case Str(s) => s != ""
    case _ => true
  }

  /** The tag that JavaScript's `typeof` gives a value. */
  function TypeOf(v: Value): (t: string)
    ensures t in {"undefined", "object", "boolean", "number", "string", "function"}
    ensures t == "object" <==> v.Null? || v.Arr? || v.DateObj? || v.Obj?
  {
    match v
    case Undefined => "undefined"
    case Null => "object"
    case Bool(_) => "boolean"
    case Num(_) => "number"
    case Str(_) => "string"
    case Arr(_) => "object"
    case DateObj(_) => "object"
    case Obj(_) => "object"
    case Fn(_) => "function"
  }

  /** The keys of a field list, in order. */
  function FieldKeys(fields: seq<(string, Value)>): (ks: seq<string>)
    ensures |ks| == |fields|
    ensures forall i :: 0 <= i < |fields| ==> ks[i] == fields[i].0
  {
    if fields == [] then [] else [fields[0].0] + FieldKeys(fields[1..])
  }

  /** The decimal numeral of `n`, the form in which JavaScript lists an array index as a key. */
  function Numeral(n: nat): (r: string)
    ensures r != []
    ensures forall i :: 0 <= i < |r| ==> '0' <= r[i] <= '9'
  {
    var last := "0123456789"[n % 10];
    if n < 10 then [last] else Numeral(n / 10) + [last]
  }

  /**
   * The own enumerable keys of a value, as `keys` returns them: the field names of
   * an object, the indices of an array, and none for a primitive, a date or a function.
   */
  function Keys(v: Value): seq<string> {
    match v
    case Obj(fields) => FieldKeys(fields)
    case Arr(elems) => seq(|elems|, i requires 0 <= i < |elems| => Numeral(i))
    case _ => []
  }

  predicate HasKey(v: Value, k: string) {
    k in Keys(v)
  }

  /** The value bound to `k` first in a field list, or `undefined`. */
  function Lookup(fields: seq<(string, Value)>, k: string): (r: Value)
    ensures k !in FieldKeys(fields) ==> r == Undefined
    ensures k in FieldKeys(fields) ==> (k, r) in fields
  {
    if fields == [] then Undefined
    else if fields[0].0 == k then fields[0].1
    else Lookup(fields[1..], k)
  }

  /** Property access `v[k]` on an object: `undefined` when it has no such key, or on any other value. */
  function Get(v: Value, k: string): Value {
    if v.Obj? then Lookup(v.fields, k) else Undefined
  }
}
