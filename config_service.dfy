/**
 * The hierarchical configuration store of
 * src/layers/Configuration/services/DefaultConfigService.ts.
 *
 * A store owns a key/value map and may have a parent store reached under a
 * key prefix. Reads look locally first and then ask the parent for the
 * prefixed key; deletes of keys that are not local are passed up the same
 * way. The parent and prefix are fixed at construction, so they are
 * `const` fields here; the map is the only state that changes.
 *
 * The chain of stores from one store up to its root is also described as
 * plain values: `Maps()` lists each level's map and `KeysFor(key)` the key
 * each level is consulted under. `FirstHit` over those two lists is the
 * reference meaning of a lookup that the recursive queries are proved
 * to agree with.
 */
module Configuration {
  import opened Json
  import opened Text
  import ObjectFlatten

  /** The value found at the first level that holds its key, if any. */
  function FirstHit(ms: seq<map<string, Value>>, ks: seq<string>): (r: Option<Value>)
    requires |ms| == |ks|
    ensures r.Some? <==> exists i :: 0 <= i < |ms| && ks[i] in ms[i]
    ensures r.Some? ==> exists i :: 0 <= i < |ms| && ks[i] in ms[i] && r.value == ms[i][ks[i]]
                                   && forall j :: 0 <= j < i ==> ks[j] !in ms[j]
  {
    if ms == [] then None
    else if ks[0] in ms[0] then Some(ms[0][ks[0]])
    else
      var r := FirstHit(ms[1..], ks[1..]);
      assert forall i :: 1 <= i < |ms| ==> ms[1..][i - 1] == ms[i] && ks[1..][i - 1] == ks[i];
      r
  }

  /**
   * A delete walking up the chain: the first level that holds its key
   * loses that key; the levels after it are not visited.
   */
  function DeleteAlong(ms: seq<map<string, Value>>, ks: seq<string>): (r: seq<map<string, Value>>)
    requires |ms| == |ks|
    ensures |r| == |ms|
  {
    if ms == [] then []
    else if ks[0] in ms[0] then [ms[0] - {ks[0]}] + ms[1..]
    else [ms[0]] + DeleteAlong(ms[1..], ks[1..])
  }

  /**
   * A delete changes at most one level: the first one holding its key,
   * which loses exactly that key. With no level holding the key, nothing
   * changes at all.
   */
  lemma {:induction false} DeleteAlongChangesOnlyFirstHit(ms: seq<map<string, Value>>, ks: seq<string>)
    requires |ms| == |ks|
    ensures FirstHit(ms, ks).None? ==> DeleteAlong(ms, ks) == ms
    ensures forall i :: 0 <= i < |ms| && DeleteAlong(ms, ks)[i] != ms[i] ==>
              ks[i] in ms[i] && DeleteAlong(ms, ks)[i] == ms[i] - {ks[i]}
              && forall j :: 0 <= j < i ==> ks[j] !in ms[j] && DeleteAlong(ms, ks)[j] == ms[j]
    ensures forall i, j :: 0 <= i < j < |ms| && DeleteAlong(ms, ks)[i] != ms[i] ==> DeleteAlong(ms, ks)[j] == ms[j]
  {
    if ms == [] {
    } else if ks[0] in ms[0] {
      var r := DeleteAlong(ms, ks);
      assert forall i :: 1 <= i < |ms| ==> r[i] == ms[i];
    } else {
      var r := DeleteAlong(ms, ks);
      var rest := DeleteAlong(ms[1..], ks[1..]);
      DeleteAlongChangesOnlyFirstHit(ms[1..], ks[1..]);
      assert r == [ms[0]] + rest;
      forall i | 1 <= i < |ms|
        ensures r[i] == rest[i - 1] && ms[1..][i - 1] == ms[i] && ks[1..][i - 1] == ks[i]
      {
      }
    }
  }

  /** After a delete, a lookup no longer sees the binding it used to find first. */
  lemma {:induction false} DeleteAlongRemovesFirstHit(ms: seq<map<string, Value>>, ks: seq<string>, i: nat)
    requires |ms| == |ks| && i < |ms| && ks[i] in ms[i]
    requires forall j :: 0 <= j < i ==> ks[j] !in ms[j]
    ensures FirstHit(DeleteAlong(ms, ks), ks) == FirstHit(ms[i + 1..], ks[i + 1..])
  {
    if i == 0 {
      assert ks[0] !in ms[0] - {ks[0]};
      assert DeleteAlong(ms, ks)[1..] == ms[1..];
    } else {
      assert ks[0] !in ms[0];
      DeleteAlongRemovesFirstHit(ms[1..], ks[1..], i - 1);
      assert ms[1..][i - 1 + 1..] == ms[i + 1..];
      assert ks[1..][i - 1 + 1..] == ks[i + 1..];
      assert DeleteAlong(ms, ks)[1..] == DeleteAlong(ms[1..], ks[1..]);
    }
  }

  /** `m.get(k)` as an option. */
  function Lookup(m: map<string, Value>, k: string): Option<Value> {
    if k in m then Some(m[k]) else None
  }

  /**
   * The own map after loading `entries`: an entry is written when `override`
   * is set or its key is neither own nor `inherited` from the parent chain.
   */
  ghost function Loaded(m: map<string, Value>, entries: seq<(string, Value)>, override: bool, inherited: iset<string>): map<string, Value>
    decreases |entries|
  {
    if entries == [] then m
    else
      var (key, value) := entries[0];
      var m' := if override || !(key in m || key in inherited) then m[key := value] else m;
      Loaded(m', entries[1..], override, inherited)
  }

  /** After a load, every loaded key is own or inherited. */
  lemma {:induction false} LoadedKeysPresent(m: map<string, Value>, entries: seq<(string, Value)>, override: bool, inherited: iset<string>)
    ensures forall i :: 0 <= i < |entries| ==>
              entries[i].0 in Loaded(m, entries, override, inherited) || entries[i].0 in inherited
    decreases |entries|
  {
    if entries != [] {
      var (key, value) := entries[0];
      var m' := if override || !(key in m || key in inherited) then m[key := value] else m;
      LoadedKeysPresent(m', entries[1..], override, inherited);
      LoadedKeepsKeys(m', entries[1..], override, inherited);
      assert forall i :: 1 <= i < |entries| ==> entries[i] == entries[1..][i - 1];
    }
  }

  /** A load never removes an own key. */
  lemma {:induction false} LoadedKeepsKeys(m: map<string, Value>, entries: seq<(string, Value)>, override: bool, inherited: iset<string>)
    ensures m.Keys <= Loaded(m, entries, override, inherited).Keys
    decreases |entries|
  {
    if entries != [] {
      var (key, value) := entries[0];
      var m' := if override || !(key in m || key in inherited) then m[key := value] else m;
      LoadedKeepsKeys(m', entries[1..], override, inherited);
    }
  }

  /**
   * Without `override` a load keeps every existing own value and never
   * shadows a key the parent already provides.
   */
  lemma {:induction false} LoadWithoutOverrideKeeps(m: map<string, Value>, entries: seq<(string, Value)>, inherited: iset<string>, k: string)
    ensures k in m ==> k in Loaded(m, entries, false, inherited) && Loaded(m, entries, false, inherited)[k] == m[k]
    ensures k !in m && k in inherited ==> k !in Loaded(m, entries, false, inherited)
    decreases |entries|
  {
    if entries != [] {
      var (key, value) := entries[0];
      var m' := if !(key in m || key in inherited) then m[key := value] else m;
      LoadWithoutOverrideKeeps(m', entries[1..], inherited, k);
    }
  }

  /** With `override`, each loaded key ends up with the value of its last entry. */
  lemma {:induction false} LoadWithOverrideLastWins(m: map<string, Value>, entries: seq<(string, Value)>, inherited: iset<string>, i: nat)
    requires i < |entries|
    requires forall j :: i < j < |entries| ==> entries[j].0 != entries[i].0
    ensures entries[i].0 in Loaded(m, entries, true, inherited)
    ensures Loaded(m, entries, true, inherited)[entries[i].0] == entries[i].1
    decreases |entries|
  {
    var (key, value) := entries[0];
    var m' := m[key := value];
    if i == 0 {
      LoadedUntouched(m', entries[1..], inherited, key);
    } else {
      assert forall j :: i - 1 < j < |entries| - 1 ==> entries[1..][j] == entries[j + 1];
      LoadWithOverrideLastWins(m', entries[1..], inherited, i - 1);
    }
  }

  /** Under `override`, a key no entry mentions keeps its value. */
  lemma {:induction false} LoadedUntouched(m: map<string, Value>, entries: seq<(string, Value)>, inherited: iset<string>, k: string)
    requires forall j :: 0 <= j < |entries| ==> entries[j].0 != k
    ensures Lookup(Loaded(m, entries, true, inherited), k) == Lookup(m, k)
    decreases |entries|
  {
    if entries != [] {
      var (key, value) := entries[0];
      LoadedUntouched(m[key := value], entries[1..], inherited, k);
    }
  }

  /**
   * A plain object holding the entries of `m`, one property per key
   * (`result[key] = value` for each key).
   */
  method EntriesOf(m: map<string, Value>) returns (fields: seq<(string, Value)>)
    ensures DistinctKeys(fields)
    ensures forall k :: FieldOf(fields, k) == Lookup(m, k)
  {
    var remaining := m.Keys;
    fields := [];
    while remaining != {}
      invariant remaining <= m.Keys
      invariant DistinctKeys(fields)
      invariant forall k :: FieldOf(fields, k) == if k in m && k !in remaining then Some(m[k]) else None
      decreases remaining
    {
      var key :| key in remaining;
      SetFieldDistinct(fields, key, m[key]);
      fields := SetField(fields, key, m[key]);
      remaining := remaining - {key};
    }
  }

  /**
   * `Object.assign(target, source)` as a value: the properties of `source`
   * copied onto `target` one after another.
   */
  function AssignAll(target: seq<(string, Value)>, source: seq<(string, Value)>): seq<(string, Value)>
    decreases |source|
  {
    if source == [] then target
    else
      var (key, value) := source[|source| - 1];
      SetField(AssignAll(target, source[..|source| - 1]), key, value)
  }

  /** `source` wins where both objects have a property; property names stay distinct. */
  lemma {:induction false} AssignAllFields(target: seq<(string, Value)>, source: seq<(string, Value)>)
    requires DistinctKeys(target) && DistinctKeys(source)
    ensures DistinctKeys(AssignAll(target, source))
    ensures forall k :: FieldOf(AssignAll(target, source), k)
                     == if FieldOf(source, k).Some? then FieldOf(source, k) else FieldOf(target, k)
    decreases |source|
  {
    if source != [] {
      var init := source[..|source| - 1];
      var (key, value) := source[|source| - 1];
      DistinctInit(source);
      AssignAllFields(target, init);
      SetFieldDistinct(AssignAll(target, init), key, value);
      assert AssignAll(target, source) == SetField(AssignAll(target, init), key, value);
      SnocWins(AssignAll(target, init), target, init, source);
    }
  }

  /** One more `result[key] = value` step of `Object.assign`, for a name not copied before. */
  lemma SnocWins(acc: seq<(string, Value)>, target: seq<(string, Value)>, init: seq<(string, Value)>,
                 source: seq<(string, Value)>)
    requires source != [] && init == source[..|source| - 1]
    requires FieldOf(init, source[|source| - 1].0).None?
    requires forall k :: FieldOf(acc, k) == if FieldOf(init, k).Some? then FieldOf(init, k) else FieldOf(target, k)
    ensures forall k :: FieldOf(SetField(acc, source[|source| - 1].0, source[|source| - 1].1), k)
                     == if FieldOf(source, k).Some? then FieldOf(source, k) else FieldOf(target, k)
  {
    var (key, value) := source[|source| - 1];
    assert source == init + [(key, value)];
    forall k
      ensures FieldOf(SetField(acc, key, value), k)
           == if FieldOf(source, k).Some? then FieldOf(source, k) else FieldOf(target, k)
    {
      FieldOfSnoc(init, key, value, k);
    }
  }

  /** Dropping the last property keeps names distinct, and the last name is not among the others. */
  lemma DistinctInit(source: seq<(string, Value)>)
    requires DistinctKeys(source) && source != []
    ensures DistinctKeys(source[..|source| - 1])
    ensures FieldOf(source[..|source| - 1], source[|source| - 1].0).None?
  {
    var init := source[..|source| - 1];
    forall i, j | 0 <= i < j < |init| ensures init[i].0 != init[j].0 {
      assert init[i] == source[i] && init[j] == source[j];
    }
    forall j | 0 <= j < |init| ensures init[j].0 != source[|source| - 1].0 {
      assert init[j] == source[j];
    }
  }

  /** `Object.assign(target, source)` on a fresh result. */
  method Assign(target: seq<(string, Value)>, source: seq<(string, Value)>) returns (r: seq<(string, Value)>)
    ensures r == AssignAll(target, source)
  {
    r := target;
    var i := 0;
    while i < |source|
      invariant i <= |source|
      invariant r == AssignAll(target, source[..i])
    {
      assert source[..i + 1][..i] == source[..i];
      var (key, value) := source[i];
      r := SetField(r, key, value);
      i := i + 1;
    }
    assert source[..i] == source;
  }

  /**
   * `Object.assign` of objects denoting two maps denotes their union, the
   * source's bindings winning.
   */
  lemma AssignAllDenotes(target: seq<(string, Value)>, source: seq<(string, Value)>,
                         m: map<string, Value>, n: map<string, Value>)
    requires DistinctKeys(target) && DistinctKeys(source)
    requires forall k :: FieldOf(target, k) == Lookup(m, k)
    requires forall k :: FieldOf(source, k) == Lookup(n, k)
    ensures DistinctKeys(AssignAll(target, source))
    ensures forall k :: FieldOf(AssignAll(target, source), k) == Lookup(m + n, k)
  {
    AssignAllFields(target, source);
    forall k ensures FieldOf(AssignAll(target, source), k) == Lookup(m + n, k) {
      assert FieldOf(source, k) == Lookup(n, k);
      assert FieldOf(target, k) == Lookup(m, k);
    }
  }

  class ConfigService {
    /** `configMap`: the store's own entries. */
    var configMap: map<string, Value>
    /** The optional parent store. */
    const parent: ConfigService?
    /** Prefix applied to keys looked up in the parent. */
    const parentPrefix: string
    /** Distance to the root; it makes every walk up the chain terminate. */
    ghost const depth: nat
    /** This store and all its ancestors: what lookups read and deletes may change. */
    ghost const chain: set<ConfigService>

    /** The chain of parents ends: each parent is strictly nearer the root. */
    ghost predicate Valid()
      decreases depth
    {
      this in chain &&
      (parent == null ==> chain == {this}) &&
      (parent != null ==> parent.depth < depth && parent.Valid() && chain == {this} + parent.chain && this !in parent.chain)
    }

    /** `new DefaultConfigService(parent, parentPrefix)`. */
    constructor (parent: ConfigService?, parentPrefix: string := "")
      requires parent != null ==> parent.Valid()
      ensures Valid()
      ensures this.parent == parent && this.parentPrefix == parentPrefix
      ensures configMap == map[]
    {
      this.parent := parent;
      this.parentPrefix := parentPrefix;
      this.depth := if parent == null then 0 else parent.depth + 1;
      this.chain := if parent == null then {this} else {this} + parent.chain;
      this.configMap := map[];
    }

    /** `createChildService(prefix)`: a new store whose parent is this one. */
    method CreateChildService(prefix: string) returns (child: ConfigService)
      requires Valid()
      ensures fresh(child) && child.Valid()
      ensures child.parent == this && child.parentPrefix == prefix && child.configMap == map[]
    {
      child := new ConfigService(this, prefix);
    }

    /**
     * `getParentKey(key)`: the key under which the parent is asked. An
     * empty (or absent) key asks for the prefix itself.
     */
    function ParentKey(key: string): (r: string)
      ensures StartsWith(r, parentPrefix)
      ensures key != "" ==> EndsWith(r, key)
      ensures key != "" && parentPrefix != "" ==> |r| == |parentPrefix| + 1 + |key| && r[|parentPrefix|] == '.'
      ensures key == "" || parentPrefix == "" ==> |r| == |parentPrefix| + |key|
    {
      if key == "" then parentPrefix
      else if parentPrefix != "" then parentPrefix + "." + key
      else key
    }

    /** `hasOwn(key)`. */
    predicate HasOwn(key: string)
      reads this
    {
      key in configMap
    }

    /** The parent holds the prefixed key somewhere up its chain. */
    predicate ParentHas(key: string)
      requires Valid()
      reads if parent == null then {} else parent.chain
      decreases depth, 0
    {
      parent != null && parent.Has(ParentKey(key))
    }

    /** `has(key)`: held here, or by the parent under the prefixed key. */
    predicate Has(key: string)
      requires Valid()
      reads chain
      decreases depth, 1
    {
      HasOwn(key) || ParentHas(key)
    }

    /** `get(key, defaultValue)`. An omitted default is `undefined`. */
    function Get(key: string, defaultValue: Value := Undefined): Value
      requires Valid()
      reads chain
      decreases depth, 1
    {
      if Has(key) then GetInternal(key, defaultValue) else defaultValue
    }

    /** `getInternal(key, defaultValue)`: own value, else the parent's `get` of the prefixed key. */
    function GetInternal(key: string, defaultValue: Value := Undefined): Value
      requires Valid()
      reads chain
      decreases depth, 0
    {
      if key in configMap then configMap[key]
      else if parent != null then parent.Get(ParentKey(key), defaultValue)
      else defaultValue
    }

    /** The maps of this store and its ancestors, nearest first. */
    ghost function Maps(): (r: seq<map<string, Value>>)
      requires Valid()
      reads chain
      ensures |r| >= 1 && r[0] == configMap
      ensures parent != null ==> r == [configMap] + parent.Maps()
      ensures parent == null ==> r == [configMap]
      decreases depth
    {
      [configMap] + (if parent == null then [] else parent.Maps())
    }

    /** The key each level of the chain is consulted under, nearest first. */
    ghost function KeysFor(key: string): (r: seq<string>)
      requires Valid()
      ensures |r| >= 1 && r[0] == key
      ensures parent != null ==> r == [key] + parent.KeysFor(ParentKey(key))
      ensures parent == null ==> r == [key]
      decreases depth
    {
      [key] + (if parent == null then [] else parent.KeysFor(ParentKey(key)))
    }

    lemma {:induction false} ChainLengths(key: string)
      requires Valid()
      ensures |Maps()| == |KeysFor(key)|
      decreases depth
    {
      if parent != null {
        parent.ChainLengths(ParentKey(key));
      }
    }

    /**
     * Lookups agree with the reference meaning: a key is present iff some
     * level holds it under its prefixed form, and `get` returns the value at
     * the first such level (local first, then the parent under the prefixed
     * key), or the default when there is none.
     */
    lemma {:induction false} LookupIsFirstHit(key: string, defaultValue: Value)
      requires Valid()
      ensures |Maps()| == |KeysFor(key)|
      ensures Has(key) <==> FirstHit(Maps(), KeysFor(key)).Some?
      ensures Get(key, defaultValue) == match FirstHit(Maps(), KeysFor(key))
                                        case Some(v) => v
                                        case None => defaultValue
      decreases depth
    {
      ChainLengths(key);
      var ms, ks := Maps(), KeysFor(key);
      if key in configMap {
        assert FirstHit(ms, ks) == Some(configMap[key]);
      } else if parent != null {
        parent.LookupIsFirstHit(ParentKey(key), defaultValue);
        assert ms[1..] == parent.Maps();
        assert ks[1..] == parent.KeysFor(ParentKey(key));
        assert FirstHit(ms, ks) == FirstHit(parent.Maps(), parent.KeysFor(ParentKey(key)));
      } else {
        assert FirstHit(ms, ks) == None;
      }
    }

    /** A key that is nowhere in the chain reads as the default. */
    lemma AbsentReadsDefault(key: string, defaultValue: Value)
      requires Valid() && !Has(key)
      ensures Get(key, defaultValue) == defaultValue
    {
    }

    /** `set(key, value, override)`: only an absent key, or any key with `override`, is written. */
    method Set(key: string, value: Value, override: bool := false)
      requires Valid()
      modifies this
      ensures configMap == if key !in old(configMap) || override then old(configMap)[key := value] else old(configMap)
      ensures HasOwn(key) && Has(key)
      ensures Get(key) == if key in old(configMap) && !override then old(configMap)[key] else value
    {
      if key !in configMap || override {
        configMap := configMap[key := value];
      }
    }

    /**
     * `delete(key)`: removes the own key when present; otherwise asks the
     * parent to delete the prefixed key. Across the chain, exactly the first
     * level holding its key loses it.
     */
    method Delete(key: string)
      requires Valid()
      modifies chain
      ensures |old(Maps())| == |KeysFor(key)|
      ensures Maps() == DeleteAlong(old(Maps()), KeysFor(key))
      ensures key in old(configMap) ==> configMap == old(configMap) - {key}
      ensures key !in old(configMap) ==> configMap == old(configMap)
      decreases depth
    {
      ChainLengths(key);
      if key in configMap {
        configMap := configMap - {key};
        assert parent != null ==> parent.Maps() == old(parent.Maps());
      } else if parent != null {
        parent.ChainLengths(ParentKey(key));
        parent.Delete(ParentKey(key));
      }
    }

    /** `test(key)`: the value read with an `undefined` default is truthy. */
    predicate Test(key: string)
      requires Valid()
      reads chain
    {
      Truthy(Get(key))
    }

    /** `testSome(keys)`: `keys.some(key => this.test(key))`. */
    predicate TestSome(keys: seq<string>)
      requires Valid()
      reads chain
      ensures TestSome(keys) <==> exists i :: 0 <= i < |keys| && Test(keys[i])
    {
      if keys == [] then false
      else Test(keys[0]) || (assert forall i :: 1 <= i < |keys| ==> keys[1..][i - 1] == keys[i]; TestSome(keys[1..]))
    }

    /** `testAll(keys)`: `keys.every(key => this.test(key))`. */
    predicate TestAll(keys: seq<string>)
      requires Valid()
      reads chain
      ensures TestAll(keys) <==> forall i :: 0 <= i < |keys| ==> Test(keys[i])
    {
      if keys == [] then true
      else Test(keys[0]) && (assert forall i :: 1 <= i < |keys| ==> keys[1..][i - 1] == keys[i]; TestAll(keys[1..]))
    }

    /** `hasSome(keys)`: `keys.some(key => this.has(key))`. */
    predicate HasSome(keys: seq<string>)
      requires Valid()
      reads chain
      ensures HasSome(keys) <==> exists i :: 0 <= i < |keys| && Has(keys[i])
    {
      if keys == [] then false
      else Has(keys[0]) || (assert forall i :: 1 <= i < |keys| ==> keys[1..][i - 1] == keys[i]; HasSome(keys[1..]))
    }

    /** `hasAll(keys)`: `keys.every(key => this.has(key))`. */
    predicate HasAll(keys: seq<string>)
      requires Valid()
      reads chain
      ensures HasAll(keys) <==> forall i :: 0 <= i < |keys| ==> Has(keys[i])
    {
      if keys == [] then true
      else Has(keys[0]) && (assert forall i :: 1 <= i < |keys| ==> keys[1..][i - 1] == keys[i]; HasAll(keys[1..]))
    }

    /** Own entries whose key starts with `prefix` (every key does when it is empty). */
    function OwnEntries(prefix: string): (r: map<string, Value>)
      reads this
      ensures forall k :: k in r <==> k in configMap && StartsWith(k, prefix)
      ensures forall k :: k in r ==> r[k] == configMap[k]
    {
      map k | k in configMap && StartsWith(k, prefix) :: configMap[k]
    }

    /**
     * What `toObject(prefix)` denotes: the own entries under the prefix,
     * overwritten by the parent's `toObject` of the prefixed prefix.
     */
    ghost function ObjectView(prefix: string): map<string, Value>
      requires Valid()
      reads chain
      decreases depth
    {
      if parent == null then OwnEntries(prefix)
      else OwnEntries(prefix) + parent.ObjectView(ParentKey(prefix))
    }

    /**
     * `toObject(prefix)`: collects the own keys starting with the prefix,
     * then `Object.assign`s the parent's object over them, so the parent
     * wins on equal keys. The result is a plain object.
     */
    method ToObject(prefix: string := "") returns (fields: seq<(string, Value)>)
      requires Valid()
      ensures DistinctKeys(fields)
      ensures forall k :: FieldOf(fields, k) == Lookup(ObjectView(prefix), k)
      decreases depth
    {
      var own := OwnEntries(prefix);
      fields := EntriesOf(own);
      if parent != null {
        ghost var view := parent.ObjectView(ParentKey(prefix));
        var parentFields := parent.ToObject(ParentKey(prefix));
        AssignAllDenotes(fields, parentFields, own, view);
        fields := Assign(fields, parentFields);
      }
    }

    /** The keys the parent chain answers for (under this store's naming). */
    ghost function Inherited(): iset<string>
      requires Valid()
      reads if parent == null then {} else parent.chain
    {
      iset k | ParentHas(k)
    }

    /**
     * `load(obj, topLevelKey, override)`: each flattened entry is set when
     * `override` is given or the key is not yet present anywhere in the
     * chain. The flattening receives `override` as its `storeObjects` flag.
     */
    method Load(obj: Value, topLevelKey: string := "", override: bool := false)
      requires Valid()
      requires obj.Undefined? ==> override
      modifies this
      ensures configMap == Loaded(old(configMap), ObjectFlatten.Flatten(obj, topLevelKey, override), override, Inherited())
      ensures forall e :: e in ObjectFlatten.Flatten(obj, topLevelKey, override) ==> Has(e.0)
    {
      var entries := ObjectFlatten.Flatten(obj, topLevelKey, override);
      LoadEntries(entries, override);
    }

    /** `load`'s loop over the flattened entries. */
    method LoadEntries(entries: seq<(string, Value)>, override: bool)
      requires Valid()
      modifies this
      ensures configMap == Loaded(old(configMap), entries, override, Inherited())
      ensures forall e :: e in entries ==> Has(e.0)
    {
      ghost var inherited := Inherited();
      var i := 0;
      while i < |entries|
        invariant i <= |entries|
        invariant Inherited() == inherited
        invariant Loaded(configMap, entries[i..], override, inherited) == Loaded(old(configMap), entries, override, inherited)
      {
        var (key, value) := entries[i];
        assert entries[i..][0] == (key, value) && entries[i..][1..] == entries[i + 1..];
        LoadEntry(key, value, override, inherited);
        i := i + 1;
      }
      LoadedKeysPresent(old(configMap), entries, override, inherited);
      forall e | e in entries ensures Has(e.0) {
        var j :| 0 <= j < |entries| && entries[j] == e;
        assert e.0 in configMap || e.0 in inherited;
      }
    }

    /** One step of `load`'s loop: `if (override || !this.has(key)) this.set(key, value, override)`. */
    method LoadEntry(key: string, value: Value, override: bool, ghost inherited: iset<string>)
      requires Valid() && Inherited() == inherited
      modifies this
      ensures Inherited() == inherited
      ensures configMap == if override || !(key in old(configMap) || key in inherited)
                           then old(configMap)[key := value] else old(configMap)
    {
      assert parent != null ==> this !in parent.chain;
      assert ParentHas(key) <==> key in inherited;
      if override || !Has(key) {
        Set(key, value, override);
      }
    }

    /** `clear()`: empties the own map only; the parent is untouched. */
    method Clear()
      requires Valid()
      modifies this
      ensures configMap == map[]
      ensures forall key :: Has(key) <==> ParentHas(key)
    {
      configMap := map[];
    }
  }
}
