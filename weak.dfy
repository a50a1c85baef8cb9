/**
 * The `Weak` wrapper and the reads the `Weaked` protocol extension
 * derives from its one slot (Sources/Weakable/Weak.swift).
 */
module WeakRef {
  import opened Wrappers
  import opened Objects

  /**
   * A non-owning reference: the slot remembers which object it was bound
   * to, but reading it yields that object only while it is still live.
   */
  datatype Weak = Weak(slot: Option<Obj>)

  /** `Weak(_ object: Object? = nil)`: bind a fresh wrapper to `o`. */
  function Init(o: Option<Obj>): (w: Weak)
    ensures forall live {:trigger Object(w, live)} ::
      Object(w, live) == if o.Some? && o.value in live then o else None
  {
    Weak(o)
  }

  /** `Weak(nilLiteral:)`, i.e. `let w: Weak<T> = nil`. */
  function NilLiteral(): (w: Weak)
    ensures w == Init(None)
    ensures forall live {:trigger IsEmpty(w, live)} :: IsEmpty(w, live)
  {
    Init(None)
  }

  /** Reading `object`: the referent while it is live, `nil` otherwise. */
  function Object(w: Weak, live: set<Obj>): (r: Option<Obj>)
    ensures r.Some? ==> w.slot == r && r.value in live
    ensures r.None? <==> w.slot.None? || w.slot.value !in live
  {
    match w.slot
    case Some(o) => if o in live then Some(o) else None
    case None => None
  }

  /** `isEmpty`: the slot was never bound, or its referent was deallocated. */
  function IsEmpty(w: Weak, live: set<Obj>): (b: bool)
    ensures b <==> w.slot.None? || w.slot.value !in live
  {
    Object(w, live).None?
  }

  /** `as<T>()`: the referent, if it is live and castable to `t`. */
  function As(w: Weak, live: set<Obj>, t: TypeTag): (r: Option<Obj>)
    ensures r.Some? <==> !IsEmpty(w, live) && Conforms(w.slot.value, t)
    ensures r.Some? ==> r == Object(w, live)
  {
    match Object(w, live)
    case Some(o) => if Conforms(o, t) then Some(o) else None
    case None => None
  }

  /**
   * A variable of type `Weak`: the `inout` left-hand side of the infix
   * `≈` operator, which replaces the whole wrapper.
   */
  class WeakVar {
    var weak: Weak

    constructor(initial: Weak)
      ensures weak == initial
    {
      weak := initial;
    }

    /** `lhs ≈ rhs`: `lhs = Weak(rhs)`, a full rebind. */
    method Rebind(rhs: Option<Obj>)
      modifies this
      ensures weak == Init(rhs)
      ensures forall live {:trigger Object(weak, live)} ::
        Object(weak, live) == if rhs.Some? && rhs.value in live then rhs else None
    {
      weak := Init(rhs);
    }
  }

  /** A referent that is gone stays gone: releasing more objects never brings it back. */
  lemma DeadStaysDead(w: Weak, live: set<Obj>, live': set<Obj>)
    requires live' <= live
    ensures IsEmpty(w, live) ==> IsEmpty(w, live')
    ensures Object(w, live').Some? ==> Object(w, live') == Object(w, live)
  {
  }

  /** After `o` is released, no wrapper bound to it yields it. */
  lemma ReleaseEmptiesWrapper(w: Weak, live: set<Obj>, o: Obj)
    requires w.slot == Some(o)
    ensures IsEmpty(w, Release(live, o))
  {
  }
}
