/**
 * JavaScript values as the logging and configuration code sees them
 * (`unknown`, plain objects, arrays), together with the few language
 * operations that code relies on: truthiness, `typeof … === 'object'`,
 * the `in` operator, property reads and object spread.
 *
 * Objects keep their properties as an ordered list, which is the order
 * `Object.entries` enumerates them in. Arrays carry no named properties.
 */
module Json {

  datatype Option<+T> = None | Some(value: T)

  datatype Value =
    | Undefined
    | Null
    | Bool(b: bool)
    | Num(n: real)
    | Str(s: string)
    | Arr(items: seq<Value>)
    | Obj(fields: seq<(string, Value)>)

  /** `Boolean(v)`: every value is truthy except undefined, null, false, 0 and ''. */
  predicate Truthy(v: Value) {
    match v
    case Undefined => false
    case Null => false
    case Bool(b) => b
    case Num(n) => n != 0.0
    case Str(s) => s != ""
    case Arr(_) => true
    case Obj(_) => true
  }

  /** `typeof v === 'object'` (which also holds of null). */
  predicate IsObjectType(v: Value) {
    v.Null? || v.Arr? || v.Obj?
  }

  /** The value bound to `key` in a property list, the first binding winning. */
  function FieldOf(fields: seq<(string, Value)>, key: string): (r: Option<Value>)
    ensures r.Some? <==> exists i :: 0 <= i < |fields| && fields[i].0 == key
    ensures r.Some? ==> exists i :: 0 <= i < |fields| && fields[i] == (key, r.value)
  {
    if fields == [] then None
    else if fields[0].0 == key then Some(fields[0].1)
    else
      var r := FieldOf(fields[1..], key);
      assert r.Some? ==> exists i :: 0 <= i < |fields| - 1 && fields[1..][i] == (key, r.value);
      r
  }

  /** `key in v`, for the property names the code asks about. */
  predicate HasKey(v: Value, key: string) {
    v.Obj? && FieldOf(v.fields, key).Some?
  }

  /** `v[key]` read from an object; `None` where the property is absent. */
  function Get(v: Value, key: string): Option<Value> {
    if v.Obj? then FieldOf(v.fields, key) else None
  }

  /** The string under `key`, when the property is present and `typeof` it is 'string'. */
  function GetString(v: Value, key: string): Option<string> {
    match Get(v, key)
    case Some(Str(s)) => Some(s)
    case _ => None
  }

  /** The number under `key`, when the property is present and `typeof` it is 'number'. */
  function GetNumber(v: Value, key: string): Option<real> {
    match Get(v, key)
    case Some(Num(n)) => Some(n)
    case _ => None
  }

  /**
   * The own properties `{...v}` copies: an object's fields; nothing for
   * null, undefined, booleans and numbers.
   */
  function Spread(v: Value): seq<(string, Value)> {
    if v.Obj? then v.fields else []
  }

  /**
   * `{...fields, [key]: value}`: a property already present keeps its
   * position and takes the new value, a new one goes last.
   */
  function SetField(fields: seq<(string, Value)>, key: string, value: Value): (r: seq<(string, Value)>)
    ensures FieldOf(r, key) == Some(value)
    ensures forall k :: k != key ==> FieldOf(r, k) == FieldOf(fields, k)
  {
    if fields == [] then [(key, value)]
    else if fields[0].0 == key then [(key, value)] + fields[1..]
    else [fields[0]] + SetField(fields[1..], key, value)
  }

  /** No property name occurs twice, as in every real JavaScript object. */
  predicate DistinctKeys(fields: seq<(string, Value)>) {
    forall i, j :: 0 <= i < j < |fields| ==> fields[i].0 != fields[j].0
  }

  /** `SetField` keeps property names distinct. */
  lemma SetFieldDistinct(fields: seq<(string, Value)>, key: string, value: Value)
    requires DistinctKeys(fields)
    ensures DistinctKeys(SetField(fields, key, value))
    ensures |SetField(fields, key, value)| <= |fields| + 1
  {
    if fields != [] && fields[0].0 != key {
      SetFieldDistinct(fields[1..], key, value);
      var rest := SetField(fields[1..], key, value);
      assert forall j :: 0 <= j < |fields[1..]| ==> fields[1..][j].0 != fields[0].0 by {
        forall j | 0 <= j < |fields[1..]| ensures fields[1..][j].0 != fields[0].0 {
          assert fields[1..][j] == fields[j + 1];
        }
      }
      assert FieldOf(rest, fields[0].0).None?;
    }
  }

  /** Looking a name up after appending one more property. */
  lemma FieldOfSnoc(fields: seq<(string, Value)>, key: string, value: Value, k: string)
    ensures FieldOf(fields + [(key, value)], k)
         == if FieldOf(fields, k).Some? then FieldOf(fields, k)
            else if k == key then Some(value) else None
  {
    if fields != [] {
      assert (fields + [(key, value)])[1..] == fields[1..] + [(key, value)];
      FieldOfSnoc(fields[1..], key, value, k);
    }
  }

  /** The first property with a given name is the one a lookup finds. */
  lemma {:induction false} FieldOfAt(fields: seq<(string, Value)>, i: nat)
    requires i < |fields|
    requires forall j :: 0 <= j < i ==> fields[j].0 != fields[i].0
    ensures FieldOf(fields, fields[i].0) == Some(fields[i].1)
  {
    if i > 0 {
      assert fields[1..][i - 1] == fields[i];
      FieldOfAt(fields[1..], i - 1);
    }
  }
}
