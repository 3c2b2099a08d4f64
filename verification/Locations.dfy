/** Data locations, and the test that compares the locations of two objects. */
module Locations {
  import opened Wrappers

  /** Where a piece of object data lives: a backend type and a key in that backend. */
  datatype Location = Location(dataStoreType: string, key: string)

  /** The `location` attribute of an existing object. Model version 2 stored a bare key. */
  datatype Previous = Missing | LegacyKey(key: string) | Current(locations: seq<Location>)

  /** No location of `curr` is a location of `prev`. */
  ghost predicate Disjoint(prev: seq<Location>, curr: seq<Location>) {
    forall l :: l in prev ==> l !in curr
  }

  /** What the replay test is documented to mean: no new key is a key of the old object. */
  ghost predicate NoSharedKey(prev: Previous, curr: seq<Location>) {
    match prev
    case Missing => true
    case LegacyKey(key) => key == "" || forall l <- curr :: l.key != key
    case Current(locations) => Disjoint(locations, curr)
  }

  /** The test itself: old keys are gathered by backend type, then every new one is looked up. */
  method LocationKeysHaveChanged(prev: Previous, curr: Option<seq<Location>>) returns (changed: bool)
    ensures changed <==> curr.None? || NoSharedKey(prev, curr.value)
  {
    if prev.Missing? || curr.None? {
      return true;
    }
    if prev.LegacyKey? {
      if prev.key == "" {
        return true;
      }
      return forall l <- curr.value :: l.key != prev.key;
    }
    var locations := prev.locations;
    var keysMap: map<string, set<string>> := map[];
    for i := 0 to |locations|
      invariant forall t, k :: t in keysMap && k in keysMap[t] <==> Location(t, k) in locations[..i]
    {
      var v := locations[i];
      assert locations[..i + 1] == locations[..i] + [v];
      if v.dataStoreType !in keysMap {
        keysMap := keysMap[v.dataStoreType := {}];
      }
      keysMap := keysMap[v.dataStoreType := keysMap[v.dataStoreType] + {v.key}];
    }
    assert locations[..|locations|] == locations;
    changed := forall l <- curr.value :: !(l.dataStoreType in keysMap && l.key in keysMap[l.dataStoreType]);
    assert forall l <- curr.value ::
        (l.dataStoreType in keysMap && l.key in keysMap[l.dataStoreType]) <==> Location(l.dataStoreType, l.key) in locations;
    assert forall l <- curr.value :: l == Location(l.dataStoreType, l.key);
  }
}
