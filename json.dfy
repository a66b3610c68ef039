/**
 * JavaScript values as they travel in request bodies, query strings and route
 * parameters, and the JSON round trip (`JSON.stringify` by the HTTP client,
 * `JSON.parse` by the server) that the front end's payloads go through.
 */
module Json {

  /** A JavaScript value. Numbers are modelled as (finite) reals. */
  datatype Value =
    | Undefined
    | Null
    | Bool(b: bool)
    | Num(n: real)
    | Str(s: string)
    | Arr(items: seq<Value>)

  /** A plain object: its own enumerable properties. */
  type Object = map<string, Value>

  /** Property access `o[key]`: a missing property reads as `undefined`. */
  function Get(o: Object, key: string): Value
  {
    if key in o then o[key] else Undefined
  }

  /** JavaScript truthiness (`if (v)`, `v || w`, `!v`). */
  predicate Truthy(v: Value)
  {
    match v
    case Undefined => false
    case Null => false
    case Bool(b) => b
    case Num(n) => n != 0.0
    case Str(s) => s != ""
    case Arr(_) => true
  }

  /** `Array.isArray(v)`. */
  predicate IsArray(v: Value) { v.Arr? }

  /** A value with no `undefined` anywhere inside it: what `JSON.parse` can produce. */
  predicate Defined(v: Value)
  {
    match v
    case Undefined => false
    case Arr(xs) => forall i :: 0 <= i < |xs| ==> Defined(xs[i])
    case _ => true
  }

  /**
   * A value standing in an array slot after `JSON.stringify` and `JSON.parse`:
   * `undefined` becomes `null`, arrays are serialised element by element.
   */
  function OnWire(v: Value): (w: Value)
    ensures Defined(w)
    ensures v != Undefined && !v.Arr? ==> w == v
  {
    match v
    case Undefined => Null
    case Arr(xs) => Arr(seq(|xs|, i requires 0 <= i < |xs| => OnWire(xs[i])))
    case _ => v
  }

  /**
   * An object after `JSON.stringify` and `JSON.parse`: properties holding
   * `undefined` disappear, the others are serialised.
   */
  function ObjectOnWire(o: Object): (w: Object)
    ensures w.Keys == set k | k in o && o[k] != Undefined
    ensures forall k :: k in w ==> w[k] == OnWire(o[k]) && Defined(w[k])
  {
    map k | k in o && o[k] != Undefined :: OnWire(o[k])
  }

  /** Reading a property after the round trip: `undefined` stays `undefined`, anything else is serialised. */
  lemma GetOnWire(o: Object, key: string)
    ensures Get(ObjectOnWire(o), key) == if Get(o, key) == Undefined then Undefined else OnWire(Get(o, key))
  {
  }
}
