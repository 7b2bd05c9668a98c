/**
 * Feature switches read from the configuration store
 * (src/layers/Feature/services/DefaultFeatureService.ts).
 *
 * `getFeature(name)` asks the store for `toObject('features.' + name)` and
 * returns that object when it has an `enabled` property, and
 * `{ enabled: false }` otherwise.
 */
module Features {
  import opened Json
  import opened Text
  import opened Configuration

  /** `{ enabled: false }`, the answer for a feature that is not configured. */
  function Disabled(): (r: Value)
    ensures HasKey(r, "enabled") && Get(r, "enabled") == Some(Bool(false))
  {
    Obj([("enabled", Bool(false))])
  }

  /** `features.${featureName}`. */
  function FeaturePrefix(featureName: string): (r: string)
    ensures StartsWith(r, "features.") && EndsWith(r, featureName)
    ensures |r| == 9 + |featureName|
  {
    "features." + featureName
  }

  /**
   * The decision `getFeature` takes on what the store returned: the object
   * itself when it is truthy, of type 'object' and has `enabled`; the
   * disabled default otherwise. Either way the answer has `enabled`.
   */
  function FeatureOf(config: Value): (r: Value)
    ensures HasKey(r, "enabled")
    ensures r == config || r == Disabled()
  {
    if Truthy(config) && IsObjectType(config) && HasKey(config, "enabled") then config else Disabled()
  }

  /**
   * Only the `in` test matters: an object with `enabled` is returned as it
   * is (even with `enabled: false`), and anything else, null, undefined and
   * strings included, becomes the disabled default.
   */
  lemma FeatureOfDecidedByEnabled(config: Value)
    ensures FeatureOf(config) == if HasKey(config, "enabled") then config else Disabled()
  {
  }

  /** An `enabled` property that is `false` is kept, together with the other settings. */
  lemma ExplicitlyDisabledIsKept(fields: seq<(string, Value)>)
    requires FieldOf(fields, "enabled") == Some(Bool(false))
    ensures FeatureOf(Obj(fields)) == Obj(fields)
  {
  }

  /**
   * The properties under the dotted prefix `q`, with `q` taken off their
   * names: what a feature's own settings look like as an object.
   */
  function StripPrefixFields(fields: seq<(string, Value)>, q: string): (r: seq<(string, Value)>)
    ensures |r| <= |fields|
    ensures forall k :: FieldOf(r, k) == FieldOf(fields, q + k)
  {
    if fields == [] then []
    else
      var rest := StripPrefixFields(fields[1..], q);
      var (key, value) := fields[0];
      if StartsWith(key, q) then
        assert forall k :: key == q + k <==> k == key[|q|..];
        [(key[|q|..], value)] + rest
      else
        assert forall k :: key != q + k;
        rest
  }

  /**
   * Every name in a store's `toObject(prefix)` is at least as long as a
   * non-empty prefix: own names start with it, and the parent's names start
   * with the parent key built from it.
   */
  lemma {:induction false} ViewNamesAtLeastPrefix(store: ConfigService, prefix: string)
    requires store.Valid() && prefix != ""
    ensures forall k :: k in store.ObjectView(prefix) ==> |k| >= |prefix|
    decreases store.depth
  {
    if store.parent != null {
      ViewNamesAtLeastPrefix(store.parent, store.ParentKey(prefix));
    }
  }

  /**
   * The names `toObject('features.' + name)` returns are the full dotted
   * configuration keys, never the bare `enabled`: the property `getFeature`
   * tests for is never there.
   */
  lemma EnabledNeverListed(store: ConfigService, featureName: string)
    requires store.Valid()
    ensures "enabled" !in store.ObjectView(FeaturePrefix(featureName))
  {
    ViewNamesAtLeastPrefix(store, FeaturePrefix(featureName));
  }

  /**
   * Reading an object whose lookups agree with `view`, relative to
   * `prefix + '.'`: the feature is that relative object when
   * `prefix.enabled` is configured, and the disabled default otherwise.
   */
  lemma RelativeFeature(fields: seq<(string, Value)>, view: map<string, Value>, prefix: string)
    requires forall k :: FieldOf(fields, k) == Lookup(view, k)
    ensures var r := FeatureOf(Obj(StripPrefixFields(fields, prefix + ".")));
            (prefix + ".enabled" in view ==> r.Obj? && forall k :: FieldOf(r.fields, k) == Lookup(view, prefix + "." + k))
            && (prefix + ".enabled" !in view ==> r == Disabled())
            && Get(r, "enabled") == if prefix + ".enabled" in view then Some(view[prefix + ".enabled"]) else Some(Bool(false))
  {
    var own := StripPrefixFields(fields, prefix + ".");
    var key := prefix + ".enabled";
    assert FieldOf(own, "enabled") == Lookup(view, key) by {
      assert prefix + "." + "enabled" == key;
      assert FieldOf(own, "enabled") == FieldOf(fields, key);
    }
    if key in view {
      assert FeatureOf(Obj(own)) == Obj(own) by {
        assert HasKey(Obj(own), "enabled");
      }
      forall k ensures FieldOf(own, k) == Lookup(view, prefix + "." + k) {
        assert FieldOf(own, k) == FieldOf(fields, prefix + "." + k);
      }
    } else {
      assert !HasKey(Obj(own), "enabled");
    }
  }

  /** `DefaultFeatureService`, holding the configuration store it reads. */
  class FeatureService {
    const configService: ConfigService

    constructor (configService: ConfigService)
      ensures this.configService == configService
    {
      this.configService := configService;
    }

    /**
     * `getFeature(featureName)` as written: because the store's object is
     * keyed by full dotted names, no configuration makes a feature enabled.
     */
    method GetFeature(featureName: string) returns (r: Value)
      requires configService.Valid()
      ensures r == Disabled()
    {
      var fields := configService.ToObject(FeaturePrefix(featureName));
      EnabledNeverListed(configService, featureName);
      r := FeatureOf(Obj(fields));
    }

    /**
     * `getFeature(featureName)` reading the feature's settings relative to
     * its prefix, as the documented behaviour and the configuration files
     * intend: `features.<name>.enabled` becomes the `enabled` property.
     */
    method GetFeatureCorrected(featureName: string) returns (r: Value)
      requires configService.Valid()
      ensures var prefix := FeaturePrefix(featureName);
              var view := configService.ObjectView(prefix);
              (prefix + ".enabled" in view ==> r.Obj? && forall k :: FieldOf(r.fields, k) == Lookup(view, prefix + "." + k))
              && (prefix + ".enabled" !in view ==> r == Disabled())
              && Get(r, "enabled") == if prefix + ".enabled" in view then Some(view[prefix + ".enabled"]) else Some(Bool(false))
    {
      var prefix := FeaturePrefix(featureName);
      var fields := configService.ToObject(prefix);
      var own := StripPrefixFields(fields, prefix + ".");
      r := FeatureOf(Obj(own));
      RelativeFeature(fields, configService.ObjectView(prefix), prefix);
    }
  }
}
