/**
 * The two registry scenarios of the repository's test suite, replayed
 * against the registry's contracts alone.
 */
module RegistryScenarios {
  import opened Wrappers
  import opened Objects
  import opened WeakRef
  import opened WeakRegistry

  /** The type tag of the test class. */
  const TestType: TypeTag := 0

  /**
   * Register id 0, ask again for id 0, register id 1, release id 0's
   * instance and ask for id 1 again: the dictionary holds 1, 1, 2 and
   * then 1 entries, and both repeated requests get the stored instance.
   */
  method ReleaseScenario() returns (counts: seq<nat>, reusedFirst: bool, reusedSecond: bool)
    ensures counts == [1, 1, 2, 1]
    ensures reusedFirst && reusedSecond
  {
    var registry := new Registry<int>(TestType, None);
    var a0, b0, a1, b1 := Obj(0, {TestType}), Obj(1, {TestType}), Obj(2, {TestType}), Obj(3, {TestType});
    var live: set<Obj> := {a0};
    var one: map<int, Weak> := map[0 := Init(Some(a0))];
    var two: map<int, Weak> := one[1 := Init(Some(a1))];
    var last: map<int, Weak> := map[1 := Init(Some(a1))];

    var r1, e1 := registry.WeakGlobal<()>(0, Ok(a0), live);
    assert WeakDictionaries.FilterWeaks<int>(map[], live) == map[];
    assert registry.weakGlobals.entries == one;
    counts := [|registry.weakGlobals.entries|];

    var r2, e2 := registry.WeakGlobal<()>(0, Ok(b0), live);
    assert WeakDictionaries.FilterWeaks(one, live) == one;
    assert registry.weakGlobals.entries == one;
    counts := counts + [|registry.weakGlobals.entries|];
    reusedFirst := r2 == r1 && !e2;

    live := live + {a1};
    WeakDictionaries.FilterWeaksKeepsLive(one, live);
    var r3, e3 := registry.WeakGlobal<()>(1, Ok(a1), live);
    assert registry.weakGlobals.entries == two;
    counts := counts + [|registry.weakGlobals.entries|];

    live := Release(live, a0);
    assert live == {a1};
    PruneDropsReleased(a0, a1, live);
    var r4, e4 := registry.WeakGlobal<()>(1, Ok(b1), live);
    assert registry.weakGlobals.entries == last;
    counts := counts + [|registry.weakGlobals.entries|];
    reusedSecond := r4 == r3 && !e4;
  }

  /** Pruning after the release of id 0's instance keeps only id 1. */
  lemma PruneDropsReleased(a0: Obj, a1: Obj, live: set<Obj>)
    requires a0 !in live && a1 in live
    ensures WeakDictionaries.FilterWeaks(map[0 := Init(Some(a0)), 1 := Init(Some(a1))], live)
         == map[1 := Init(Some(a1))]
  {
    var m := map[0 := Init(Some(a0)), 1 := Init(Some(a1))];
    assert WeakDictionaries.FilterWeaks(m, live).Keys == {1};
  }

  /**
   * A `UniqueGlobalIDProvider` with id 0: `weakGlobal(default:)` and then
   * `weakGlobal(id: 0, default:)` give the same instance and one entry;
   * once it is released, `removeWeaks()` leaves the dictionary empty.
   */
  method UniqueScenario() returns (counts: seq<nat>, same: bool)
    ensures counts == [1, 1, 0]
    ensures same
  {
    var registry := new Registry<int>(TestType, Some(0));
    var u0, u1 := Obj(0, {TestType}), Obj(1, {TestType});
    var live: set<Obj> := {u0};

    ghost var g0 := registry.weakGlobals.entries;
    var r1, e1 := registry.WeakGlobalUnique<()>(Ok(u0), live);
    ObtainSize<int, ()>(g0, 0, Ok(u0), live, TestType);
    counts := [|registry.weakGlobals.entries|];

    ghost var g1 := registry.weakGlobals.entries;
    var r2, e2 := registry.WeakGlobal<()>(0, Ok(u1), live);
    RepeatedObtainReturnsSameInstance<int, ()>(g0, 0, Ok(u0), Ok(u1), live, live, TestType);
    ObtainSize<int, ()>(g1, 0, Ok(u1), live, TestType);
    assert WeakDictionaries.FilterWeaks(g1, live) == g1;
    counts := counts + [|registry.weakGlobals.entries|];
    same := r1 == r2;

    live := Release(live, u0);
    registry.weakGlobals.RemoveWeaks(live);
    WeakDictionaries.AllReleasedFiltersToEmpty(registry.weakGlobals.entries, live);
    counts := counts + [|registry.weakGlobals.entries|];
  }
}
