/**
 * The `Dictionary where Value: Weaked` helpers and
 * `Dictionary where Value: AnyObject`'s `asWeakValues`
 * (Sources/Weakable/Weak.swift, "Collections").
 */
module WeakDictionaries {
  import opened Wrappers
  import opened Objects
  import opened WeakRef

  /** `filterWeaks()`: `filter { $1.object != nil }`. */
  function FilterWeaks<K>(m: map<K, Weak>, live: set<Obj>): (r: map<K, Weak>)
    ensures r.Keys <= m.Keys
    ensures forall k :: k in r ==> r[k] == m[k] && !IsEmpty(r[k], live)
    ensures forall k :: k in m && !IsEmpty(m[k], live) ==> k in r
  {
    map k | k in m && !IsEmpty(m[k], live) :: m[k]
  }

  /** `compactWeaks()`: `filterWeaks().mapValues { $0.object! }`. */
  function CompactWeaks<K>(m: map<K, Weak>, live: set<Obj>): (r: map<K, Obj>)
    ensures r.Keys == FilterWeaks(m, live).Keys
    ensures forall k :: k in r ==> Object(m[k], live) == Some(r[k])
  {
    var alive := FilterWeaks(m, live);
    map k | k in alive :: alive[k].slot.value
  }

  /** `asWeakValues()`: `mapValues { ≈$0 }`. */
  function AsWeakValues<K>(m: map<K, Obj>): (r: map<K, Weak>)
    ensures r.Keys == m.Keys
    ensures forall k, live {:trigger Object(r[k], live)} | k in m ::
      Object(r[k], live) == if m[k] in live then Some(m[k]) else None
  {
    map k | k in m :: Init(Some(m[k]))
  }

  /**
   * `as<T>()`: fills a fresh dictionary with `result[key] = value.as()`
   * for every entry; assigning `nil` to a subscript leaves the key out.
   */
  method As<K>(m: map<K, Weak>, live: set<Obj>, t: TypeTag) returns (result: map<K, Obj>)
    ensures forall k :: k in result <==> k in m && WeakRef.As(m[k], live, t).Some?
    ensures forall k :: k in result ==> Some(result[k]) == Object(m[k], live) && Conforms(result[k], t)
  {
    result := map[];
    var pending := m.Keys;
    while pending != {}
      invariant pending <= m.Keys
      invariant forall k :: k in result <==> k in m && k !in pending && WeakRef.As(m[k], live, t).Some?
      invariant forall k :: k in result ==> Some(result[k]) == WeakRef.As(m[k], live, t)
      decreases pending
    {
      var k :| k in pending;
      match WeakRef.As(m[k], live, t) {
        case Some(o) => result := result[k := o];
        case None => result := result - {k};
      }
      pending := pending - {k};
    }
  }

  /**
   * The pre-Swift-4 body of `filterWeaks()`: copy every entry whose
   * object is not `nil` into a fresh dictionary, one entry at a time.
   */
  method FilterWeaksByLoop<K>(m: map<K, Weak>, live: set<Obj>) returns (result: map<K, Weak>)
    ensures result == FilterWeaks(m, live)
  {
    result := map[];
    var pending := m.Keys;
    while pending != {}
      invariant pending <= m.Keys
      invariant forall k :: k in result <==> k in m && k !in pending && !IsEmpty(m[k], live)
      invariant forall k :: k in result ==> result[k] == m[k]
      decreases pending
    {
      var k :| k in pending;
      if !IsEmpty(m[k], live) {
        result := result[k := m[k]];
      }
      pending := pending - {k};
    }
  }

  /** A variable of dictionary-of-wrappers type, for the `mutating` helper. */
  class WeakDictionary<K(==)> {
    var entries: map<K, Weak>

    constructor(entries: map<K, Weak>)
      ensures this.entries == entries
    {
      this.entries := entries;
    }

    /** `removeWeaks()`: `self = filterWeaks()`. */
    method RemoveWeaks(live: set<Obj>)
      modifies this
      ensures entries == FilterWeaks(old(entries), live)
      ensures forall k :: k in entries ==> !IsEmpty(entries[k], live)
    {
      entries := FilterWeaks(entries, live);
    }
  }

  /** Filtering twice is filtering once. */
  lemma FilterWeaksIdempotent<K>(m: map<K, Weak>, live: set<Obj>)
    ensures FilterWeaks(FilterWeaks(m, live), live) == FilterWeaks(m, live)
  {
    var once := FilterWeaks(m, live);
    assert FilterWeaks(once, live).Keys == once.Keys;
  }

  /** A dictionary is left unchanged by the filter exactly when every one of its referents is live. */
  lemma FilterWeaksKeepsLive<K>(m: map<K, Weak>, live: set<Obj>)
    ensures FilterWeaks(m, live) == m <==> forall k :: k in m ==> !IsEmpty(m[k], live)
  {
    if forall k :: k in m ==> !IsEmpty(m[k], live) {
      assert FilterWeaks(m, live).Keys == m.Keys;
    }
  }

  /** The filter shrinks the dictionary by exactly its dead entries. */
  lemma FilterWeaksSize<K>(m: map<K, Weak>, live: set<Obj>)
    ensures |FilterWeaks(m, live)| == |m| - |set k | k in m && IsEmpty(m[k], live)|
  {
    var dead := set k | k in m && IsEmpty(m[k], live);
    assert FilterWeaks(m, live).Keys == m.Keys - dead;
    assert |m.Keys - dead| == |m.Keys| - |dead|;
  }

  /** Once every referent has been released, removing the dead entries empties the dictionary. */
  lemma AllReleasedFiltersToEmpty<K>(m: map<K, Weak>, live: set<Obj>)
    requires forall k :: k in m ==> IsEmpty(m[k], live)
    ensures FilterWeaks(m, live) == map[]
  {
  }

  /** Wrapping live objects and compacting them again gives back the same dictionary. */
  lemma CompactAsWeakValuesRoundTrip<K>(m: map<K, Obj>, live: set<Obj>)
    requires forall k :: k in m ==> m[k] in live
    ensures CompactWeaks(AsWeakValues(m), live) == m
  {
  }

  /** When every referent is castable to `t`, `as<T>()` has the keys of `compactWeaks()`. */
  lemma AsKeysOfCompact<K>(m: map<K, Weak>, live: set<Obj>, t: TypeTag)
    requires forall k :: k in m && m[k].slot.Some? ==> Conforms(m[k].slot.value, t)
    ensures forall k :: k in CompactWeaks(m, live) <==> k in m && WeakRef.As(m[k], live, t).Some?
  {
  }
}
