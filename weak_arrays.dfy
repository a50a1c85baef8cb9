/**
 * The `Array where Element: Weaked` helpers and `Sequence.asWeaks`
 * (Sources/Weakable/Weak.swift, "Collections").
 */
module WeakArrays {
  import opened Wrappers
  import opened Objects
  import opened WeakRef

  /** `filterWeaks()`: the wrappers whose object is not `nil`, in their original order. */
  function FilterWeaks(s: seq<Weak>, live: set<Obj>): (r: seq<Weak>)
    ensures |r| <= |s|
    ensures forall w {:trigger multiset(r)[w]} ::
      multiset(r)[w] == if IsEmpty(w, live) then 0 else multiset(s)[w]
  {
    if s == [] then []
    else
      assert s == [s[0]] + s[1..];
      if IsEmpty(s[0], live) then FilterWeaks(s[1..], live)
      else [s[0]] + FilterWeaks(s[1..], live)
  }

  /** `compactWeaks()`: `compactMap { $0.object }`, the live referents in order. */
  function CompactWeaks(s: seq<Weak>, live: set<Obj>): (r: seq<Obj>)
    ensures |r| <= |s|
    ensures forall o :: o in r ==> o in live
  {
    if s == [] then []
    else match Object(s[0], live)
      case Some(o) => [o] + CompactWeaks(s[1..], live)
      case None => CompactWeaks(s[1..], live)
  }

  /** `as<T>()`: `compactMap { $0.as() }`, the live referents castable to `t`. */
  function As(s: seq<Weak>, live: set<Obj>, t: TypeTag): (r: seq<Obj>)
    ensures |r| <= |s|
    ensures forall o :: o in r ==> o in live && Conforms(o, t)
  {
    if s == [] then []
    else match WeakRef.As(s[0], live, t)
      case Some(o) => [o] + As(s[1..], live, t)
      case None => As(s[1..], live, t)
  }

  /** `asWeaks()`: `map { ≈$0 }`, one fresh wrapper per object. */
  function AsWeaks(s: seq<Obj>): (r: seq<Weak>)
    ensures |r| == |s|
    ensures forall i, live {:trigger Object(r[i], live)} | 0 <= i < |s| ::
      Object(r[i], live) == if s[i] in live then Some(s[i]) else None
  {
    seq(|s|, i requires 0 <= i < |s| => Init(Some(s[i])))
  }

  /** The positions of `s` whose wrapper is not empty. */
  ghost function LiveIndices(s: seq<Weak>, live: set<Obj>): set<nat> {
    set i: nat | i < |s| && !IsEmpty(s[i], live)
  }

  /** A variable of array-of-wrappers type, for the `mutating` helper. */
  class WeakArray {
    var elements: seq<Weak>

    constructor(elements: seq<Weak>)
      ensures this.elements == elements
    {
      this.elements := elements;
    }

    /** `removeWeaks()`: `self = filterWeaks()`. */
    method RemoveWeaks(live: set<Obj>)
      modifies this
      ensures elements == FilterWeaks(old(elements), live)
      ensures forall w :: w in elements ==> !IsEmpty(w, live)
    {
      elements := FilterWeaks(elements, live);
      forall w | w in elements
        ensures !IsEmpty(w, live)
      {
        assert multiset(elements)[w] > 0;
      }
    }
  }

  /** Filtering distributes over concatenation: relative order is kept. */
  lemma {:induction false} FilterWeaksConcat(a: seq<Weak>, b: seq<Weak>, live: set<Obj>)
    ensures FilterWeaks(a + b, live) == FilterWeaks(a, live) + FilterWeaks(b, live)
  {
    if a == [] {
      assert a + b == b;
    } else {
      assert (a + b)[1..] == a[1..] + b;
      FilterWeaksConcat(a[1..], b, live);
    }
  }

  /** Every wrapper left by the filter is live, so filtering twice changes nothing. */
  lemma {:induction false} FilterWeaksIdempotent(s: seq<Weak>, live: set<Obj>)
    ensures FilterWeaks(FilterWeaks(s, live), live) == FilterWeaks(s, live)
  {
    if s != [] {
      FilterWeaksIdempotent(s[1..], live);
      if !IsEmpty(s[0], live) {
        var r := FilterWeaks(s, live);
        assert r[0] == s[0] && r[1..] == FilterWeaks(s[1..], live);
      }
    }
  }

  /** The filter keeps as many wrappers as `s` has live entries. */
  lemma {:induction false} FilterWeaksLength(s: seq<Weak>, live: set<Obj>)
    ensures |FilterWeaks(s, live)| == |LiveIndices(s, live)|
  {
    if s != [] {
      var t, x := s[..|s| - 1], s[|s| - 1];
      assert s == t + [x];
      FilterWeaksLength(t, live);
      FilterWeaksConcat(t, [x], live);
      assert [x][1..] == [];
      if IsEmpty(x, live) {
        assert LiveIndices(s, live) == LiveIndices(t, live);
      } else {
        assert LiveIndices(s, live) == LiveIndices(t, live) + {|t|};
        assert |t| !in LiveIndices(t, live);
      }
    }
  }

  /** `compactWeaks()` is the referents of `filterWeaks()`, position by position. */
  lemma {:induction false} CompactWeaksResolvesFilterWeaks(s: seq<Weak>, live: set<Obj>)
    ensures |CompactWeaks(s, live)| == |FilterWeaks(s, live)|
    ensures forall i :: 0 <= i < |CompactWeaks(s, live)| ==>
      Object(FilterWeaks(s, live)[i], live) == Some(CompactWeaks(s, live)[i])
  {
    if s != [] {
      CompactWeaksResolvesFilterWeaks(s[1..], live);
    }
  }

  /** The objects of `os` castable to `t`, in order. */
  function Conforming(os: seq<Obj>, t: TypeTag): (r: seq<Obj>)
    ensures forall o :: o in r ==> o in os && Conforms(o, t)
  {
    if os == [] then []
    else if Conforms(os[0], t) then [os[0]] + Conforming(os[1..], t)
    else Conforming(os[1..], t)
  }

  /** `as<T>()` is `compactWeaks()` with the objects not castable to `t` left out, order kept. */
  lemma {:induction false} AsIsConformingCompact(s: seq<Weak>, live: set<Obj>, t: TypeTag)
    ensures As(s, live, t) == Conforming(CompactWeaks(s, live), t)
  {
    if s != [] {
      AsIsConformingCompact(s[1..], live, t);
      var c := CompactWeaks(s, live);
      if !IsEmpty(s[0], live) {
        assert c[0] == s[0].slot.value && c[1..] == CompactWeaks(s[1..], live);
      }
    }
  }

  /** When every referent is castable to `t`, `as<T>()` is `compactWeaks()`. */
  lemma {:induction false} AsAllConformingIsCompact(s: seq<Weak>, live: set<Obj>, t: TypeTag)
    requires forall w :: w in s && w.slot.Some? ==> Conforms(w.slot.value, t)
    ensures As(s, live, t) == CompactWeaks(s, live)
  {
    if s != [] {
      assert forall w :: w in s[1..] ==> w in s;
      AsAllConformingIsCompact(s[1..], live, t);
    }
  }

  /** Wrapping live objects and unwrapping them again gives back the same objects. */
  lemma {:induction false} CompactAsWeaksRoundTrip(s: seq<Obj>, live: set<Obj>)
    requires forall o :: o in s ==> o in live
    ensures CompactWeaks(AsWeaks(s), live) == s
  {
    if s != [] {
      assert AsWeaks(s)[1..] == AsWeaks(s[1..]);
      CompactAsWeaksRoundTrip(s[1..], live);
    }
  }

  /** Wrapping live objects gives wrappers that the filter keeps, all of them. */
  lemma {:induction false} FilterAsWeaksKeepsAll(s: seq<Obj>, live: set<Obj>)
    requires forall o :: o in s ==> o in live
    ensures FilterWeaks(AsWeaks(s), live) == AsWeaks(s)
  {
    if s != [] {
      assert AsWeaks(s)[1..] == AsWeaks(s[1..]);
      FilterAsWeaksKeepsAll(s[1..], live);
    }
  }

  /**
   * Releasing one of the wrapped objects shortens the filtered array by
   * exactly one: ten wrapped objects, one released, nine left.
   */
  lemma {:induction false} ReleaseOneFiltersOne(s: seq<Obj>, live: set<Obj>, o: Obj)
    requires forall p :: p in s ==> p in live
    requires multiset(s)[o] == 1
    ensures |FilterWeaks(AsWeaks(s), Release(live, o))| == |s| - 1
  {
    var live' := Release(live, o);
    assert AsWeaks(s)[1..] == AsWeaks(s[1..]);
    if s[0] == o {
      assert s == [s[0]] + s[1..];
      assert o !in s[1..] by {
        assert multiset(s) == multiset{o} + multiset(s[1..]);
      }
      FilterAsWeaksKeepsAll(s[1..], live');
    } else {
      assert s == [s[0]] + s[1..];
      assert multiset(s[1..])[o] == 1 by {
        assert multiset(s) == multiset{s[0]} + multiset(s[1..]);
      }
      ReleaseOneFiltersOne(s[1..], live, o);
    }
  }
}
