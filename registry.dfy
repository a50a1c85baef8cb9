/**
 * The identifier-keyed weak registry of `WeaklyGloballyIdentifiable`
 * (Sources/Weakable/WeaklyGloballyIdentifiable.swift).
 *
 * A conforming class owns one static dictionary `weakGlobals` from its
 * `GlobalID` to `Weak<Self>`. `weakGlobal(id:default:)` prunes the dead
 * entries, reuses the live instance stored under `id` when there is one,
 * and otherwise evaluates `default`, stores a fresh wrapper of its result
 * under `id` and returns it. The global actor only makes each call run as
 * one uninterrupted step, which is how the method here runs.
 */
module WeakRegistry {
  import opened Wrappers
  import opened Objects
  import opened WeakRef
  import WeakDictionaries

  /**
   * What one call does: what it returns (or the error `default` threw),
   * whether it evaluated `default`, and the dictionary it leaves behind.
   */
  datatype Outcome<K(==), E> = Outcome(result: Result<Obj, E>, evaluated: bool, globals: map<K, Weak>)

  /** Every stored slot holds an instance of the registry's own type: the `Weak<Self>` value type. */
  ghost predicate AllConform<K>(globals: map<K, Weak>, selfType: TypeTag) {
    forall k :: k in globals && globals[k].slot.Some? ==> Conforms(globals[k].slot.value, selfType)
  }

  /** `id` has an entry whose referent is live and castable to `Self`. */
  predicate HasLiveEntry<K>(globals: map<K, Weak>, id: K, live: set<Obj>, selfType: TypeTag) {
    id in globals && WeakRef.As(globals[id], live, selfType).Some?
  }

  /** `weakGlobals[id]?.value as? Self`. */
  function Cached<K>(globals: map<K, Weak>, id: K, live: set<Obj>, selfType: TypeTag): (r: Option<Obj>)
    ensures r.Some? <==> HasLiveEntry(globals, id, live, selfType)
    ensures r.Some? ==> globals[id].slot == r && r.value in live && Conforms(r.value, selfType)
  {
    if id in globals then WeakRef.As(globals[id], live, selfType) else None
  }

  /**
   * One call of `weakGlobal(id:default:)` on the dictionary `globals`,
   * where `default` is what evaluating the `default` argument would give.
   */
  function Obtain<K, E>(globals: map<K, Weak>, id: K, default: Result<Obj, E>, live: set<Obj>, selfType: TypeTag)
    : (o: Outcome<K, E>)
    ensures o.evaluated <==> !HasLiveEntry(globals, id, live, selfType)
    ensures o.result.Ok? ==> o.globals == WeakDictionaries.FilterWeaks(globals, live)[id := Init(Some(o.result.value))]
    ensures o.result.Err? ==> o.globals == WeakDictionaries.FilterWeaks(globals, live) && o.result == default
  {
    var pruned := WeakDictionaries.FilterWeaks(globals, live);
    match Cached(pruned, id, live, selfType)
    case Some(instance) => Outcome(Ok(instance), false, pruned[id := Init(Some(instance))])
    case None =>
      match default
      case Ok(instance) => Outcome(Ok(instance), true, pruned[id := Init(Some(instance))])
      case Err(e) => Outcome(Err(e), true, pruned)
  }

  /** The static dictionary of one `WeaklyGloballyIdentifiable` class. */
  class Registry<K(==)> {
    /** `static var weakGlobals: [GlobalID: Weak<Self>]`. */
    const weakGlobals: WeakDictionaries.WeakDictionary<K>
    /** The tag of `Self`. */
    const selfType: TypeTag
    /** `uniqueGlobalId` when the class is a `UniqueGlobalIDProvider`. */
    const uniqueGlobalId: Option<K>

    ghost predicate Valid()
      reads weakGlobals
    {
      AllConform(weakGlobals.entries, selfType)
    }

    /** The dictionary starts out empty. */
    constructor(selfType: TypeTag, uniqueGlobalId: Option<K>)
      ensures Valid() && fresh(weakGlobals) && weakGlobals.entries == map[]
      ensures this.selfType == selfType && this.uniqueGlobalId == uniqueGlobalId
    {
      weakGlobals := new WeakDictionaries.WeakDictionary(map[]);
      this.selfType := selfType;
      this.uniqueGlobalId := uniqueGlobalId;
    }

    /**
     * `weakGlobal(id:default:)`. `default` may only produce a `Self`;
     * `evaluated` records whether the `default` autoclosure was run.
     */
    method WeakGlobal<E>(id: K, default: Result<Obj, E>, live: set<Obj>) returns (result: Result<Obj, E>, evaluated: bool)
      requires Valid()
      requires default.Ok? ==> Conforms(default.value, selfType)
      modifies weakGlobals
      ensures Valid()
      ensures Outcome(result, evaluated, weakGlobals.entries) == Obtain(old(weakGlobals.entries), id, default, live, selfType)
    {
      weakGlobals.RemoveWeaks(live);
      var cached := Cached(weakGlobals.entries, id, live, selfType);
      if cached.Some? {
        result, evaluated := Ok(cached.value), false;
      } else {
        result, evaluated := default, true;
        if result.Err? {
          return;
        }
      }
      weakGlobals.entries := weakGlobals.entries[id := Init(Some(result.value))];
    }

    /** `weakGlobal(default:)`: the same call keyed on `uniqueGlobalId`. */
    method WeakGlobalUnique<E>(default: Result<Obj, E>, live: set<Obj>) returns (result: Result<Obj, E>, evaluated: bool)
      requires Valid() && uniqueGlobalId.Some?
      requires default.Ok? ==> Conforms(default.value, selfType)
      modifies weakGlobals
      ensures Valid()
      ensures Outcome(result, evaluated, weakGlobals.entries)
           == Obtain(old(weakGlobals.entries), uniqueGlobalId.value, default, live, selfType)
    {
      result, evaluated := WeakGlobal(uniqueGlobalId.value, default, live);
    }
  }

  /** Every entry other than `id`'s survives exactly when its referent is live, with its value unchanged. */
  lemma ObtainPrunesOtherEntries<K, E>(globals: map<K, Weak>, id: K, default: Result<Obj, E>, live: set<Obj>, selfType: TypeTag)
    ensures var o := Obtain(globals, id, default, live, selfType);
      forall k :: k != id ==>
        (k in o.globals <==> k in globals && !IsEmpty(globals[k], live)) &&
        (k in o.globals ==> o.globals[k] == globals[k])
  {
  }

  /** A live castable entry is returned as it is, `default` is not evaluated and the dictionary is only pruned. */
  lemma ObtainReusesLiveEntry<K, E>(globals: map<K, Weak>, id: K, default: Result<Obj, E>, live: set<Obj>, selfType: TypeTag)
    requires HasLiveEntry(globals, id, live, selfType)
    ensures var o := Obtain(globals, id, default, live, selfType);
      o.result == Ok(globals[id].slot.value) && !o.evaluated &&
      o.globals == WeakDictionaries.FilterWeaks(globals, live)
  {
    var pruned := WeakDictionaries.FilterWeaks(globals, live);
    assert pruned[id := Init(globals[id].slot)] == pruned;
  }

  /** Without a live castable entry, `default` is evaluated and its outcome is what the call returns or throws. */
  lemma ObtainEvaluatesDefaultOnMiss<K, E>(globals: map<K, Weak>, id: K, default: Result<Obj, E>, live: set<Obj>, selfType: TypeTag)
    requires !HasLiveEntry(globals, id, live, selfType)
    ensures var o := Obtain(globals, id, default, live, selfType);
      o.evaluated && o.result == default
  {
  }

  /** After a successful call, `weakGlobals[id]` resolves to the returned instance. */
  lemma ObtainStoresResult<K, E>(globals: map<K, Weak>, id: K, default: Result<Obj, E>, live: set<Obj>, selfType: TypeTag)
    requires default.Ok? ==> default.value in live
    ensures var o := Obtain(globals, id, default, live, selfType);
      o.result.Ok? ==> id in o.globals && Object(o.globals[id], live) == Some(o.result.value)
  {
  }

  /** A successful call leaves the live entries it found, plus one when `id` had no live entry. */
  lemma ObtainSize<K, E>(globals: map<K, Weak>, id: K, default: Result<Obj, E>, live: set<Obj>, selfType: TypeTag)
    ensures var o := Obtain(globals, id, default, live, selfType);
      o.result.Ok? ==>
        |o.globals| == |WeakDictionaries.FilterWeaks(globals, live)|
                       + (if id in globals && !IsEmpty(globals[id], live) then 0 else 1)
  {
    var o := Obtain(globals, id, default, live, selfType);
    var pruned := WeakDictionaries.FilterWeaks(globals, live);
    if o.result.Ok? {
      assert o.globals.Keys == pruned.Keys + {id};
      if id !in pruned {
        assert |pruned.Keys + {id}| == |pruned.Keys| + 1;
      } else {
        assert pruned.Keys + {id} == pruned.Keys;
      }
    }
  }

  /** When `default` throws, the error propagates and the dictionary stays pruned, with nothing under `id`. */
  lemma ObtainFailureLeavesPruned<K, E>(globals: map<K, Weak>, id: K, default: Result<Obj, E>, live: set<Obj>, selfType: TypeTag)
    requires AllConform(globals, selfType)
    requires default.Err?
    ensures var o := Obtain(globals, id, default, live, selfType);
      !HasLiveEntry(globals, id, live, selfType) ==>
        o.result == default && o.globals == WeakDictionaries.FilterWeaks(globals, live) && id !in o.globals
  {
  }

  /**
   * Two calls for the same id while the first result is still owned
   * return the same instance, and the second `default` is never evaluated.
   */
  lemma RepeatedObtainReturnsSameInstance<K, E>(globals: map<K, Weak>, id: K, d1: Result<Obj, E>, d2: Result<Obj, E>,
                                                live: set<Obj>, live': set<Obj>, selfType: TypeTag)
    requires d1.Ok? ==> Conforms(d1.value, selfType)
    requires AllConform(globals, selfType)
    requires Obtain(globals, id, d1, live, selfType).result.Ok?
    requires Obtain(globals, id, d1, live, selfType).result.value in live'
    ensures var first := Obtain(globals, id, d1, live, selfType);
      var second := Obtain(first.globals, id, d2, live', selfType);
      second.result == first.result && !second.evaluated
  {
    var first := Obtain(globals, id, d1, live, selfType);
    assert first.globals[id] == Init(Some(first.result.value));
  }

  /**
   * Once the instance stored under `id` has been released, the next call
   * for `id` evaluates its `default` and the dictionary keeps one entry for `id`.
   */
  lemma ObtainAfterReleaseReconstructs<K, E>(globals: map<K, Weak>, id: K, d1: Result<Obj, E>, d2: Result<Obj, E>,
                                             live: set<Obj>, live': set<Obj>, selfType: TypeTag)
    requires Obtain(globals, id, d1, live, selfType).result.Ok?
    requires Obtain(globals, id, d1, live, selfType).result.value !in live'
    ensures var first := Obtain(globals, id, d1, live, selfType);
      var second := Obtain(first.globals, id, d2, live', selfType);
      second.evaluated && second.result == d2 && (d2.Ok? ==> id in second.globals)
  {
    var first := Obtain(globals, id, d1, live, selfType);
    assert first.globals[id] == Init(Some(first.result.value));
  }

  /** Keyed on one fixed id, the registry never holds any other key: a per-type weak singleton. */
  lemma UniqueKeyStaysUnique<K, E>(globals: map<K, Weak>, u: K, default: Result<Obj, E>, live: set<Obj>, selfType: TypeTag)
    requires globals.Keys <= {u}
    ensures Obtain(globals, u, default, live, selfType).globals.Keys <= {u}
  {
  }
}
