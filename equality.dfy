/**
 * The six `==` / `!=` overloads over optional wrappers and optional raw
 * objects (Sources/Weakable/Weak.swift, "Equatable").
 *
 * Every overload first resolves each side to an optional referent
 * (`lhs?.object`) and then compares the two with Swift's `Optional`
 * equality, built on the referent type's own `==`, which is the
 * parameter `eq` here.
 */
module WeakEquality {
  import opened Wrappers
  import opened Objects
  import opened WeakRef

  /** `w?.object`: a missing wrapper and an empty wrapper both resolve to `nil`. */
  function Resolve(w: Option<Weak>, live: set<Obj>): (r: Option<Obj>)
    ensures r.None? <==> w.None? || IsEmpty(w.value, live)
    ensures r.Some? ==> r.value in live
  {
    match w
    case Some(x) => Object(x, live)
    case None => None
  }

  /** Swift's `==` on `Optional<Wrapped: Equatable>`. */
  predicate OptionalEquals(a: Option<Obj>, b: Option<Obj>, eq: (Obj, Obj) -> bool) {
    match (a, b)
    case (None, None) => true
    case (Some(x), Some(y)) => eq(x, y)
    case _ => false
  }

  /** `==<W>(lhs: W?, rhs: W?)`. */
  function EqualWeaks(lhs: Option<Weak>, rhs: Option<Weak>, live: set<Obj>, eq: (Obj, Obj) -> bool): (r: bool)
    ensures Resolve(lhs, live).None? && Resolve(rhs, live).None? ==> r
    ensures Resolve(lhs, live).None? != Resolve(rhs, live).None? ==> !r
    ensures Resolve(lhs, live).Some? && Resolve(rhs, live).Some? ==>
      (r <==> eq(lhs.value.slot.value, rhs.value.slot.value))
  {
    OptionalEquals(Resolve(lhs, live), Resolve(rhs, live), eq)
  }

  /** `==<W>(lhs: W?, rhs: W.WeakObject?)`. */
  function EqualWeakObject(lhs: Option<Weak>, rhs: Option<Obj>, live: set<Obj>, eq: (Obj, Obj) -> bool): (r: bool)
    ensures Resolve(lhs, live).None? ==> (r <==> rhs.None?)
    ensures Resolve(lhs, live).Some? ==> (r <==> rhs.Some? && eq(lhs.value.slot.value, rhs.value))
  {
    OptionalEquals(Resolve(lhs, live), rhs, eq)
  }

  /** `==<W>(lhs: W.WeakObject?, rhs: W?)`. */
  function EqualObjectWeak(lhs: Option<Obj>, rhs: Option<Weak>, live: set<Obj>, eq: (Obj, Obj) -> bool): (r: bool)
    ensures Resolve(rhs, live).None? ==> (r <==> lhs.None?)
    ensures Resolve(rhs, live).Some? ==> (r <==> lhs.Some? && eq(lhs.value, rhs.value.slot.value))
  {
    OptionalEquals(lhs, Resolve(rhs, live), eq)
  }

  /** `!=<W>(lhs: W?, rhs: W?)`. */
  function NotEqualWeaks(lhs: Option<Weak>, rhs: Option<Weak>, live: set<Obj>, eq: (Obj, Obj) -> bool): (r: bool)
    ensures r <==> !EqualWeaks(lhs, rhs, live, eq)
  {
    !OptionalEquals(Resolve(lhs, live), Resolve(rhs, live), eq)
  }

  /** `!=<W>(lhs: W?, rhs: W.WeakObject?)`. */
  function NotEqualWeakObject(lhs: Option<Weak>, rhs: Option<Obj>, live: set<Obj>, eq: (Obj, Obj) -> bool): (r: bool)
    ensures r <==> !EqualWeakObject(lhs, rhs, live, eq)
  {
    !OptionalEquals(Resolve(lhs, live), rhs, eq)
  }

  /** `!=<W>(lhs: W.WeakObject?, rhs: W?)`. */
  function NotEqualObjectWeak(lhs: Option<Obj>, rhs: Option<Weak>, live: set<Obj>, eq: (Obj, Obj) -> bool): (r: bool)
    ensures r <==> !EqualObjectWeak(lhs, rhs, live, eq)
  {
    !OptionalEquals(lhs, Resolve(rhs, live), eq)
  }

  /**
   * Equality never looks at the wrappers themselves: two pairs of sides
   * that resolve alike compare alike, so a dead slot, an unbound slot and
   * a missing wrapper are indistinguishable.
   */
  lemma EqualityDependsOnlyOnReferents(l1: Option<Weak>, r1: Option<Weak>, l2: Option<Weak>, r2: Option<Weak>,
                                       live: set<Obj>, eq: (Obj, Obj) -> bool)
    requires Resolve(l1, live) == Resolve(l2, live) && Resolve(r1, live) == Resolve(r2, live)
    ensures EqualWeaks(l1, r1, live, eq) == EqualWeaks(l2, r2, live, eq)
    ensures NotEqualWeaks(l1, r1, live, eq) == NotEqualWeaks(l2, r2, live, eq)
  {
  }

  /** Two empty sides are equal, whatever made them empty. */
  lemma EmptiesAreEqual(lhs: Option<Weak>, rhs: Option<Weak>, live: set<Obj>, eq: (Obj, Obj) -> bool)
    requires lhs.None? || IsEmpty(lhs.value, live)
    requires rhs.None? || IsEmpty(rhs.value, live)
    ensures EqualWeaks(lhs, rhs, live, eq) && !NotEqualWeaks(lhs, rhs, live, eq)
  {
  }

  /**
   * The mixed overloads agree with the wrapper-to-wrapper one once the raw
   * side is wrapped: a raw object is an owning reference, hence live.
   */
  lemma MixedOverloadsAgree(w: Option<Weak>, o: Option<Obj>, live: set<Obj>, eq: (Obj, Obj) -> bool)
    requires o.Some? ==> o.value in live
    ensures EqualWeakObject(w, o, live, eq) == EqualWeaks(w, Some(Init(o)), live, eq)
    ensures EqualObjectWeak(o, w, live, eq) == EqualWeaks(Some(Init(o)), w, live, eq)
  {
  }

  /** With an equivalence for `eq`: a wrapper equals a wrapper of the same live object. */
  lemma SameLiveReferentIsEqual(a: Obj, live: set<Obj>, eq: (Obj, Obj) -> bool)
    requires a in live
    requires forall x :: eq(x, x)
    ensures EqualWeaks(Some(Init(Some(a))), Some(Init(Some(a))), live, eq)
    ensures EqualWeakObject(Some(Init(Some(a))), Some(a), live, eq)
  {
  }

  /** Wrappers of two live referents that are not equal compare unequal. */
  lemma UnequalReferentsAreUnequal(a: Obj, b: Obj, live: set<Obj>, eq: (Obj, Obj) -> bool)
    requires a in live && b in live && !eq(a, b)
    ensures NotEqualWeaks(Some(Init(Some(a))), Some(Init(Some(b))), live, eq)
  {
  }

  /** With a symmetric `eq`, every overload is symmetric. */
  lemma EqualWeaksSymmetric(lhs: Option<Weak>, rhs: Option<Weak>, live: set<Obj>, eq: (Obj, Obj) -> bool)
    requires forall x, y :: eq(x, y) == eq(y, x)
    ensures EqualWeaks(lhs, rhs, live, eq) == EqualWeaks(rhs, lhs, live, eq)
  {
  }
}
