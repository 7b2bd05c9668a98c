/**
 * `getFlattenedObjectEntries(obj, prefix, storeObjects)` from
 * src/utils/object.ts: a depth-first walk of a nested plain object that
 * yields `[dottedKey, leafValue]` pairs. The generator becomes a function
 * returning the whole sequence it would yield.
 */
module ObjectFlatten {
  import opened Json
  import opened Text

  /** `prefix ? `${prefix}.${key}` : key`. */
  function JoinKey(prefix: string, key: string): (r: string)
    ensures prefix == "" ==> r == key
    ensures prefix != "" ==> r == prefix + "." + key
  {
    if prefix != "" then prefix + "." + key else key
  }

  /** A plain object the walk descends into: non-null, not an array. */
  predicate IsPlainObject(v: Value) {
    v.Obj?
  }

  /**
   * The first branch of the generator (line 2): with `storeObjects` a
   * non-object is yielded as it is; null and arrays always are.
   */
  predicate YieldsItself(obj: Value, storeObjects: bool) {
    (storeObjects && !IsObjectType(obj)) || obj.Null? || obj.Arr?
  }

  /** `Object.entries` of a string: one entry per character, keyed by index. */
  function CharEntries(s: string, prefix: string): (r: seq<(string, Value)>)
    ensures |r| == |s|
    ensures forall i :: 0 <= i < |r| ==> r[i] == (JoinKey(prefix, NatToString(i)), Str([s[i]]))
  {
    seq(|s|, i requires 0 <= i < |s| => (JoinKey(prefix, NatToString(i)), Str([s[i]])))
  }

  /**
   * Everything the generator yields. `Object.entries(undefined)` throws, so
   * undefined is admitted only when `storeObjects` yields it directly.
   * Booleans and numbers have no enumerable own properties.
   */
  function Flatten(obj: Value, prefix: string, storeObjects: bool): (r: seq<(string, Value)>)
    requires obj.Undefined? ==> storeObjects
    ensures forall i :: 0 <= i < |r| ==> !IsPlainObject(r[i].1)
    ensures obj.Obj? && prefix != "" ==> forall i :: 0 <= i < |r| ==> StartsWith(r[i].0, prefix + ".")
    decreases obj, 1
  {
    if YieldsItself(obj, storeObjects) then [(prefix, obj)]
    else match obj
      case Obj(fields) => FlattenFields(obj, 0, prefix)
      case Str(s) => CharEntries(s, prefix)
      case _ => []
  }

  /**
   * The loop of lines 6-13 from property `i` of `obj` on: a nested plain
   * object is walked (without `storeObjects`), anything else is yielded
   * under its full key.
   */
  function FlattenFields(obj: Value, i: nat, prefix: string): (r: seq<(string, Value)>)
    requires obj.Obj? && i <= |obj.fields|
    ensures forall j :: 0 <= j < |r| ==> !IsPlainObject(r[j].1)
    ensures prefix != "" ==> forall j :: 0 <= j < |r| ==> StartsWith(r[j].0, prefix + ".")
    decreases obj, 0, |obj.fields| - i
  {
    if i == |obj.fields| then []
    else
      var (key, value) := obj.fields[i];
      var fullKey := JoinKey(prefix, key);
      assert obj.fields[i] in obj.fields;
      var head := if IsPlainObject(value) then Flatten(value, fullKey, false) else [(fullKey, value)];
      assert prefix != "" ==> forall j :: 0 <= j < |head| ==> StartsWith(head[j].0, prefix + ".") by {
        if prefix != "" && IsPlainObject(value) {
          forall j | 0 <= j < |head| ensures StartsWith(head[j].0, prefix + ".") {
            StartsWithTransitive(head[j].0, fullKey + ".", prefix + ".");
          }
        }
      }
      head + FlattenFields(obj, i + 1, prefix)
  }

  lemma StartsWithTransitive(s: string, p: string, q: string)
    requires StartsWith(s, p) && StartsWith(p, q)
    ensures StartsWith(s, q)
  {
    assert s[..|q|] == s[..|p|][..|q|];
  }

  /** Null and arrays are yielded whole, under the prefix itself. */
  lemma NullOrArrayYieldsItself(obj: Value, prefix: string, storeObjects: bool)
    requires obj.Null? || obj.Arr?
    ensures Flatten(obj, prefix, storeObjects) == [(prefix, obj)]
  {
  }

  /**
   * The `storeObjects` flag only matters for a non-object input: it is not
   * passed on to the recursive walk, so objects flatten the same either way.
   */
  lemma StoreObjectsIrrelevantForObjects(obj: Value, prefix: string)
    requires IsObjectType(obj)
    ensures Flatten(obj, prefix, true) == Flatten(obj, prefix, false)
  {
  }

  /** An object with no properties yields nothing, nested or not. */
  lemma EmptyObjectYieldsNothing(prefix: string, storeObjects: bool)
    ensures Flatten(Obj([]), prefix, storeObjects) == []
  {
  }

  /**
   * Depth-first, in property order: the walk of an object with properties
   * `fs1 + fs2` is the walk of `fs1` followed by the walk of `fs2`.
   */
  lemma {:induction false} FlattenConcat(fs1: seq<(string, Value)>, fs2: seq<(string, Value)>, prefix: string)
    ensures Flatten(Obj(fs1 + fs2), prefix, false)
         == Flatten(Obj(fs1), prefix, false) + Flatten(Obj(fs2), prefix, false)
  {
    FlattenFieldsShift(fs1, fs2, 0, prefix);
    assert FlattenFields(Obj(fs1), |fs1|, prefix) == [];
  }

  /** The walk from property `i` of `fs1 + fs2` is the rest of `fs1`'s walk, then `fs2`'s. */
  lemma {:induction false} FlattenFieldsShift(fs1: seq<(string, Value)>, fs2: seq<(string, Value)>, i: nat, prefix: string)
    requires i <= |fs1|
    ensures FlattenFields(Obj(fs1 + fs2), i, prefix)
         == FlattenFields(Obj(fs1), i, prefix) + FlattenFields(Obj(fs2), 0, prefix)
    decreases |fs1| - i
  {
    if i == |fs1| {
      FlattenFieldsSuffix(fs1, fs2, 0, prefix);
    } else {
      assert (fs1 + fs2)[i] == fs1[i];
      FlattenFieldsShift(fs1, fs2, i + 1, prefix);
    }
  }

  /** Walking `fs1 + fs2` past all of `fs1` is walking `fs2`. */
  lemma {:induction false} FlattenFieldsSuffix(fs1: seq<(string, Value)>, fs2: seq<(string, Value)>, j: nat, prefix: string)
    requires j <= |fs2|
    ensures FlattenFields(Obj(fs1 + fs2), |fs1| + j, prefix) == FlattenFields(Obj(fs2), j, prefix)
    decreases |fs2| - j
  {
    if j < |fs2| {
      assert (fs1 + fs2)[|fs1| + j] == fs2[j];
      FlattenFieldsSuffix(fs1, fs2, j + 1, prefix);
    }
  }

  /** A single leaf property is yielded under its joined key. */
  lemma LeafProperty(key: string, value: Value, prefix: string)
    requires !IsPlainObject(value)
    ensures Flatten(Obj([(key, value)]), prefix, false) == [(JoinKey(prefix, key), value)]
  {
    assert FlattenFields(Obj([(key, value)]), 1, prefix) == [];
  }

  /** A single nested-object property contributes exactly the nested walk under its joined key. */
  lemma NestedProperty(key: string, value: Value, prefix: string)
    requires IsPlainObject(value)
    ensures Flatten(Obj([(key, value)]), prefix, false) == Flatten(value, JoinKey(prefix, key), false)
  {
    assert FlattenFields(Obj([(key, value)]), 1, prefix) == [];
  }
}
