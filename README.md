# Weakable, modelled in Dafny

Weakable wraps a non-owning ("weak") object reference in a value type,
`Weak`, whose `object` reads back the referent while something else still
owns it and `nil` once it has been deallocated. On top of the wrapper it
offers collection helpers over arrays and dictionaries of wrappers (keep the
live ones, unwrap them, prune in place, wrap everything, cast everything),
the `==`/`!=` overloads, and `WeaklyGloballyIdentifiable`: a per-class
static dictionary from a global id to `Weak<Self>` that hands out the one
live instance for an id, builds it lazily from a `default` when there is
none, and prunes dead entries on every call.

How the model is built:

- `Objects`: an object is an opaque address with the set of type tags its
  dynamic type can be cast to (`as? T` succeeds when `T` is in that set).
  Ownership is not decided here: every read of a wrapper takes the set
  `live` of objects still owned somewhere, and `Release` removes one.
- `WeakRef`: `Weak` over an optional object, `Init`, `NilLiteral`,
  `Object`, `IsEmpty`, `As`, and a `WeakVar` class standing for a variable
  of type `Weak`, whose `Rebind` is the infix `≈` assignment.
- `WeakEquality`: the six `==`/`!=` overloads. Each resolves both sides
  (`lhs?.object`) and compares them with Swift's `Optional` equality over
  the referent type's own `==`, given as the parameter `eq`.
- `WeakArrays`, `WeakDictionaries`: the helpers as functions. The two
  `mutating removeWeaks()` are methods of classes holding the array or
  dictionary. Dictionary `as<T>()` is a method with the source's loop.
  The pre-Swift-4 loop body of dictionary `filterWeaks()` is a method too,
  proved equal to the filter.
- `WeakRegistry`: `Obtain` says what one `weakGlobal(id:default:)` call
  returns, whether it evaluates `default`, and which dictionary it leaves.
  `Registry.WeakGlobal` does the same call on a registry object and is
  proved to agree with `Obtain`. `default` is passed as the outcome its
  evaluation would have: `Ok(instance)` or `Err(error)` for a throwing
  `default`.
- `RegistryScenarios`: the two registry test scenarios, replayed on a
  `Registry`.

`Weakable/Weak.swift` is an older copy of `Sources/Weakable/Weak.swift`, and
the same members model both (see "Legacy copy" below).

## Model

| member | source | states |
|---|---|---|
| `WeakRef.Init` | Sources/Weakable/Weak.swift:89-93 | a fresh wrapper reads back its object while the object is live, and `nil` once it is released or when it was bound to `nil` |
| `WeakRef.NilLiteral` | Sources/Weakable/Weak.swift:95-97 | the nil-literal wrapper is `Weak(nil)` and is empty under every liveness state |
| `WeakRef.Object` | Sources/Weakable/Weak.swift:89 | `object` is the bound object exactly when that object is live; otherwise `nil` |
| `WeakRef.IsEmpty` | Sources/Weakable/Weak.swift:41 | `isEmpty` holds exactly when the slot is unbound or its referent has been released |
| `WeakRef.As` | Sources/Weakable/Weak.swift:51-53 | `as<T>()` yields the referent exactly when it is live and castable to `T`, and then it is `object` |
| `WeakRef.WeakVar.Rebind` | Sources/Weakable/Weak.swift:212-214 | `lhs ≈ rhs` replaces the whole wrapper with `Weak(rhs)`: afterwards `object` is `rhs` while live, `nil` for a `nil` or dead `rhs` |
| `WeakRef.DeadStaysDead` | Sources/Weakable/Weak.swift:89 | a wrapper that reads `nil` keeps reading `nil` as further objects are released, and a live read never changes its object |
| `WeakRef.ReleaseEmptiesWrapper` | Tests/WeakableTests/WeakTests.swift:37-47 | once its object is released, a wrapper bound to it is empty |
| `WeakEquality.EqualWeaks` | Sources/Weakable/Weak.swift:376-378 | two empty sides are equal, one empty side against a live one is unequal, two live sides are equal as their referents are under `eq` |
| `WeakEquality.EqualWeakObject` | Sources/Weakable/Weak.swift:382-384 | an empty wrapper equals only `nil`; a live one equals a raw object its referent is `eq` to |
| `WeakEquality.EqualObjectWeak` | Sources/Weakable/Weak.swift:388-390 | the mirror image of `EqualWeakObject` |
| `WeakEquality.NotEqualWeaks` | Sources/Weakable/Weak.swift:394-396 | `!=` on two wrappers is the negation of `==` |
| `WeakEquality.NotEqualWeakObject` | Sources/Weakable/Weak.swift:400-402 | `!=` of a wrapper and a raw object is the negation of `==` |
| `WeakEquality.NotEqualObjectWeak` | Sources/Weakable/Weak.swift:406-408 | `!=` of a raw object and a wrapper is the negation of `==` |
| `WeakEquality.EqualityDependsOnlyOnReferents` | Sources/Weakable/Weak.swift:376-396 | sides that resolve to the same referents compare the same: a missing wrapper, an unbound slot and a dead referent are alike |
| `WeakEquality.EmptiesAreEqual` | Sources/Weakable/Weak.swift:376-378 | two empty sides are `==` and not `!=` |
| `WeakEquality.MixedOverloadsAgree` | Sources/Weakable/Weak.swift:382-390 | comparing with a raw (owned, hence live or `nil`) object is comparing with a fresh wrapper of it |
| `WeakEquality.SameLiveReferentIsEqual` | Sources/Weakable/Weak.swift:376-384 | for a reflexive `eq`, wrappers of the same live object are equal, and equal to the object itself |
| `WeakEquality.UnequalReferentsAreUnequal` | Sources/Weakable/Weak.swift:394-396 | wrappers of two live objects that are not `eq` compare `!=` |
| `WeakEquality.EqualWeaksSymmetric` | Sources/Weakable/Weak.swift:376-378 | for a symmetric `eq`, `==` on wrappers is symmetric |
| `WeakArrays.FilterWeaks` | Sources/Weakable/Weak.swift:226-228 | each live wrapper occurs in the result as often as in the input and no empty one occurs; the result is no longer than the input |
| `WeakArrays.FilterWeaksConcat` | Sources/Weakable/Weak.swift:226-228 | the filter distributes over concatenation, so the kept wrappers stay in their original order |
| `WeakArrays.FilterWeaksLength` | Sources/Weakable/Weak.swift:226-228 | the result has exactly as many elements as the input has live positions |
| `WeakArrays.CompactWeaks` | Sources/Weakable/Weak.swift:238-244 | `compactWeaks()` holds only live objects and is no longer than its input |
| `WeakArrays.CompactWeaksResolvesFilterWeaks` | Sources/Weakable/Weak.swift:238-244 | `compactWeaks()` has the length of `filterWeaks()` and its i-th object is what the i-th kept wrapper reads |
| `WeakArrays.As` | Sources/Weakable/Weak.swift:266-272 | `as<T>()` holds only live objects castable to `T` |
| `WeakArrays.AsIsConformingCompact` | Sources/Weakable/Weak.swift:266-272 | `as<T>()` is `compactWeaks()` with the objects not castable to `T` dropped, order kept |
| `WeakArrays.AsAllConformingIsCompact` | Sources/Weakable/Weak.swift:266-272 | when every referent is a `T`, `as<T>()` equals `compactWeaks()` |
| `WeakArrays.AsWeaks` | Sources/Weakable/Weak.swift:284-286 | `asWeaks()` keeps the length, and its i-th wrapper reads the i-th object while that object is live |
| `WeakArrays.CompactAsWeaksRoundTrip` | Sources/Weakable/Weak.swift:284-286 | unwrapping `asWeaks()` of live objects gives back the same array |
| `WeakArrays.FilterAsWeaksKeepsAll` | Sources/Weakable/Weak.swift:284-286 | `filterWeaks()` keeps every wrapper of `asWeaks()` while all objects are live |
| `WeakArrays.WeakArray.RemoveWeaks` | Sources/Weakable/Weak.swift:254-256 | `removeWeaks()` sets the array to `filterWeaks()` of its old value; every remaining wrapper is live |
| `WeakArrays.FilterWeaksIdempotent` | Sources/Weakable/Weak.swift:254-256 | filtering a filtered array changes nothing, so `removeWeaks()` is idempotent |
| `WeakArrays.ReleaseOneFiltersOne` | Tests/WeakableTests/WeakTests.swift:67-78 | with all wrapped objects live, releasing one that occurs once leaves the filtered array one shorter |
| `WeakDictionaries.FilterWeaks` | Sources/Weakable/Weak.swift:299-311 | the result keeps exactly the keys with a live value, each with its value unchanged |
| `WeakDictionaries.FilterWeaksByLoop` | Weakable/Weak.swift:216-228 | the entry-by-entry loop of the pre-Swift-4 branch builds exactly the dictionary the `filter` branch returns |
| `WeakDictionaries.FilterWeaksKeepsLive` | Sources/Weakable/Weak.swift:299-311 | the filter leaves a dictionary unchanged exactly when all its values are live |
| `WeakDictionaries.FilterWeaksSize` | Sources/Weakable/Weak.swift:299-311 | the filtered dictionary is smaller by exactly the number of dead entries |
| `WeakDictionaries.CompactWeaks` | Sources/Weakable/Weak.swift:321-323 | `compactWeaks()` has the key set of `filterWeaks()` and maps each key to what its wrapper reads |
| `WeakDictionaries.WeakDictionary.RemoveWeaks` | Sources/Weakable/Weak.swift:333-335 | `removeWeaks()` sets the dictionary to `filterWeaks()` of its old value; every remaining value is live |
| `WeakDictionaries.FilterWeaksIdempotent` | Sources/Weakable/Weak.swift:333-335 | filtering twice is filtering once, so `removeWeaks()` is idempotent |
| `WeakDictionaries.As` | Sources/Weakable/Weak.swift:345-349 | the loop leaves exactly the keys whose value is live and castable to `T`, each mapped to its referent |
| `WeakDictionaries.AsKeysOfCompact` | Sources/Weakable/Weak.swift:345-349 | when every referent is a `T`, the keys kept by `as<T>()` are those of `compactWeaks()` |
| `WeakDictionaries.AsWeakValues` | Sources/Weakable/Weak.swift:361-363 | `asWeakValues()` keeps the key set and each wrapper reads its original object while live |
| `WeakDictionaries.CompactAsWeakValuesRoundTrip` | Sources/Weakable/Weak.swift:361-363 | compacting `asWeakValues()` of live objects gives back the same dictionary |
| `WeakDictionaries.AllReleasedFiltersToEmpty` | Tests/WeakableTests/WeaklyGloballyIdentifiableTests.swift:105-108 | once every referent is released, pruning leaves an empty dictionary |
| `WeakRegistry.Cached` | Sources/Weakable/WeaklyGloballyIdentifiable.swift:55 | `weakGlobals[id]?.value as? Self` is an object exactly when `id` has a live entry castable to `Self`, and then it is that entry's object |
| `WeakRegistry.Obtain` | Sources/Weakable/WeaklyGloballyIdentifiable.swift:53-58 | `default` is evaluated exactly when `id` has no live castable entry; on success the dictionary is the pruned one with a fresh wrapper of the result under `id`; on failure it is the pruned one and the error is `default`'s |
| `WeakRegistry.Registry.constructor` | Sources/Weakable/WeaklyGloballyIdentifiable.swift:43-46 | the static dictionary starts empty and every value it holds is a `Self` |
| `WeakRegistry.Registry.WeakGlobal` | Sources/Weakable/WeaklyGloballyIdentifiable.swift:53-58 | prunes, looks up, evaluates `default` only on a miss, stores and returns: result, evaluation flag and new dictionary are those of `Obtain`; all values stay `Self` |
| `WeakRegistry.Registry.WeakGlobalUnique` | Sources/Weakable/WeaklyGloballyIdentifiable.swift:67-72 | the same call keyed on `uniqueGlobalId` |
| `WeakRegistry.ObtainPrunesOtherEntries` | Sources/Weakable/WeaklyGloballyIdentifiable.swift:54 | every entry under another id survives exactly when its referent is live, unchanged |
| `WeakRegistry.ObtainReusesLiveEntry` | Sources/Weakable/WeaklyGloballyIdentifiable.swift:55 | with a live castable entry for `id`, that instance is returned, `default` is not evaluated and the dictionary is only pruned |
| `WeakRegistry.ObtainEvaluatesDefaultOnMiss` | Sources/Weakable/WeaklyGloballyIdentifiable.swift:55 | without one, `default` is evaluated and its value or error is the call's |
| `WeakRegistry.ObtainStoresResult` | Sources/Weakable/WeaklyGloballyIdentifiable.swift:56 | after a successful call `weakGlobals[id]` reads the returned instance |
| `WeakRegistry.ObtainSize` | Sources/Weakable/WeaklyGloballyIdentifiable.swift:54-56 | after a successful call the dictionary has as many entries as there were live ones, plus one when `id` had no live entry |
| `WeakRegistry.ObtainFailureLeavesPruned` | Sources/Weakable/WeaklyGloballyIdentifiable.swift:53-56 | when `default` throws, the error propagates, the dictionary is left pruned and nothing is stored under `id` |
| `WeakRegistry.RepeatedObtainReturnsSameInstance` | Tests/WeakableTests/WeaklyGloballyIdentifiableTests.swift:55-63 | a second call for the same id, while the first result is owned, returns the same instance without evaluating its `default` |
| `WeakRegistry.ObtainAfterReleaseReconstructs` | Sources/Weakable/WeaklyGloballyIdentifiable.swift:54-56 | once the instance under `id` is released, the next call for `id` evaluates its `default` and stores the result under `id` |
| `WeakRegistry.UniqueKeyStaysUnique` | Sources/Weakable/WeaklyGloballyIdentifiable.swift:67-72 | keyed on one fixed id, the dictionary never gains another key: one live instance per class at most |
| `RegistryScenarios.ReleaseScenario` | Tests/WeakableTests/WeaklyGloballyIdentifiableTests.swift:44-80 | ids 0, 0, 1, then 1 after releasing id 0's instance: 1, 1, 2, 1 entries, and both repeated requests get the stored instance |
| `RegistryScenarios.UniqueScenario` | Tests/WeakableTests/WeaklyGloballyIdentifiableTests.swift:83-109 | `weakGlobal(default:)` then `weakGlobal(id: 0, …)` return the same instance with one entry; after release, `removeWeaks()` empties the dictionary |

### Legacy copy

`Weakable/Weak.swift` has the same behaviour as the newer file wherever both
define something, and the members above model both:

- protocol `Weakable` (lines 33-36) is `Weaked`. The `Weak` struct (67-83),
  with its `fileprivate(set)` slot (70), is `WeakRef.Weak`. Its inits
  (72-78) are `WeakRef.Init` and `WeakRef.NilLiteral`.
- prefix `≈` (102-104) is `WeakRef.Init`. Infix `≈` (159-161) is
  `WeakRef.WeakVar.Rebind`.
- Array helpers: `filterWeaks` (171-173), `compactWeaks` (181-183),
  `removeWeaks` (191-193) and `asWeaks` (203-205) are the `WeakArrays`
  members of the same names.
- Dictionary helpers: `filterWeaks` (216-228) is `WeakDictionaries.FilterWeaks`
  for its Swift 4 branch and `WeakDictionaries.FilterWeaksByLoop` for its
  older branch. `compactWeaks` (236-238), `removeWeaks` (246-248) and
  `asWeakValues` (258-260) are the `WeakDictionaries` members of the same
  names.
- `==`/`!=` (272-299) are the six `WeakEquality` functions.

What the older file lacks: `isEmpty`, `value` and `as<T>()` on the protocol,
the postfix `≈??`, the array and dictionary `as<T>()`, the collection forms
of prefix `≈`, and `asWeaks` on any `Sequence` (it has only the `Array` one).
Its slot can only be set inside its own file, so outside code changes a
wrapper only by rebinding it. The model has no other way to change a
wrapper, so the two behave the same here.

## Left out

- Reference counting and the timing of deallocation: liveness is the explicit `live` set. Within one call it does not change. So the `object!` in dictionary `compactWeaks()` cannot trap here, although in Swift it could if another thread released an object between the filter and the unwrap.
- `WeakGlobalActor`, `@globalActor`, `async`/`await`: each registry call runs as one sequential, uninterrupted method. Waiting to enter the actor, cancellation and re-entrant calls from inside `default` are not modelled.
- Swift's dynamic cast `as? T`: it is membership of a type tag in the object's set of castable types.
- `Equatable`: the referent type's `==` is the parameter `eq`. Lemmas that need reflexivity or symmetry require it.
- `description` (`CustomStringConvertible`): string formatting through reflection.
- `value`, postfix `≈`, `≈?` and `≈??`: aliases of `object` and `as()`. Prefix `≈` on a sequence or dictionary is an alias of `asWeaks`/`asWeakValues`.
- The default argument of `Weak(_:)` (`Weak()` is `Weak(nil)`): covered by `WeakRef.NilLiteral`.
- The pre-Swift-4 `flatMap` branches of array `compactWeaks` and `as<T>()`: they mean the same as the `compactMap` branches modelled.
- Generic use of the `Weaked`/`Weakable` protocol: `Weak` is its only implementer, so the helpers are stated for `Weak`.
- Setting `object` directly on the newer `Weak` (`public weak var`): it has the same effect as `WeakRef.WeakVar.Rebind`.
- The `rethrows` error type is a type parameter `E` of the registry calls. A `default` is given as the outcome its evaluation would have, not as a closure.
- The protocol-typed `Weak<TestProtocol>` in WeakTests.swift:92-96 is left unfinished in the source, so it is not modelled.
- WeakArrays.As: its own contract gives only the element property. The order and multiplicity of the result are stated by `WeakArrays.AsIsConformingCompact`.
