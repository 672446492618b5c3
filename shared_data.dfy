/**
 * The per-request shared-props store (InertiaCore/Utils/InertiaSharedData.cs).
 *
 * `data` is the nullable `Data` dictionary. GetMerged copies the stored entries under their
 * camel-cased names, then the given entries under their own names. When two stored keys
 * camel-case to the same name, the one enumerated last wins; the model leaves that order open,
 * so the merge is specified by the relation `IsMergeOf`.
 */
module SharedData {
  import opened Wrappers
  import opened Platform
  import opened Props

  function OrEmpty(data: Option<map<string, Value>>): map<string, Value> {
    if data.Some? then data.value else map[]
  }

  /** `r` is a possible result of merging `with` over the store `data`. */
  ghost predicate IsMergeOf(lib: Library, data: Option<map<string, Value>>, with: map<string, Value>, r: map<string, Value>) {
    && r.Keys == CamelImage(lib, OrEmpty(data).Keys) + with.Keys
    && (forall k :: k in with ==> r[k] == with[k])
    && (forall n :: n in r && n !in with ==>
          exists k :: k in OrEmpty(data) && lib.camelCase(k) == n && r[n] == OrEmpty(data)[k])
  }

  /** Without a store, the merge is a copy of `with`. */
  lemma MergeWithoutStoreIsCopy(lib: Library, with: map<string, Value>, r: map<string, Value>)
    requires IsMergeOf(lib, None, with, r)
    ensures r == with
  {
  }

  /** When the stored keys camel-case to distinct names, the merge is determined. */
  lemma {:induction false} MergeIsUnique(lib: Library, data: Option<map<string, Value>>, with: map<string, Value>,
                                         r1: map<string, Value>, r2: map<string, Value>)
    requires CamelInjective(lib, OrEmpty(data).Keys)
    requires IsMergeOf(lib, data, with, r1) && IsMergeOf(lib, data, with, r2)
    ensures r1 == r2
  {
    forall n | n in r1
      ensures r1[n] == r2[n]
    {
      if n !in with {
        var k1 :| k1 in OrEmpty(data) && lib.camelCase(k1) == n && r1[n] == OrEmpty(data)[k1];
        var k2 :| k2 in OrEmpty(data) && lib.camelCase(k2) == n && r2[n] == OrEmpty(data)[k2];
        assert k1 == k2;
      }
    }
  }

  class InertiaSharedData {
    var data: Option<map<string, Value>>

    constructor ()
      ensures data == None
    {
      data := None;
    }

    /** Builds a fresh dictionary; the store is only read. */
    method GetMerged(lib: Library, with: map<string, Value>) returns (r: map<string, Value>)
      ensures IsMergeOf(lib, data, with, r)
    {
      r := map[];
      var stored := OrEmpty(data);
      var todo := stored.Keys;
      while todo != {}
        invariant todo <= stored.Keys
        invariant r.Keys == CamelImage(lib, stored.Keys - todo)
        invariant forall n :: n in r ==> exists k :: k in stored && lib.camelCase(k) == n && r[n] == stored[k]
        decreases todo
      {
        var k :| k in todo;
        r := r[lib.camelCase(k) := stored[k]];
        todo := todo - {k};
      }
      ghost var fromStore := r;
      todo := with.Keys;
      while todo != {}
        invariant todo <= with.Keys
        invariant r.Keys == fromStore.Keys + (with.Keys - todo)
        invariant forall k :: k in with && k !in todo ==> r[k] == with[k]
        invariant forall n :: n in r && n !in with.Keys - todo ==> n in fromStore && r[n] == fromStore[n]
        decreases todo
      {
        var k :| k in todo;
        r := r[k := with[k]];
        todo := todo - {k};
      }
    }

    /** `Data = GetMerged(with)`. */
    method Merge(lib: Library, with: map<string, Value>)
      modifies this
      ensures data.Some? && IsMergeOf(lib, old(data), with, data.value)
    {
      var merged := GetMerged(lib, with);
      data := Some(merged);
    }

    /** Creates the dictionary when missing and stores `value` under the camel-cased key. */
    method Set(lib: Library, key: string, value: Value)
      modifies this
      ensures data == Some(OrEmpty(old(data))[lib.camelCase(key) := value])
    {
      var stored := OrEmpty(data);
      data := Some(stored[lib.camelCase(key) := value]);
    }
  }
}
