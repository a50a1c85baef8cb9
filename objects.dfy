/**
 * Heap objects as the weak-reference layer sees them.
 *
 * An object is an opaque address together with the set of types its
 * dynamic type can be cast to (its class, its superclasses and the
 * protocols it conforms to). Whether an object is still owned somewhere
 * is not a property of the object: it is the set `live` that every
 * operation reading a weak reference receives. Deallocation is the
 * explicit step `Release`, which takes an object out of that set.
 */
module Objects {

  /** A type an object may be cast to with `as? T`. */
  type TypeTag = nat

  datatype Obj = Obj(addr: nat, types: set<TypeTag>)

  /** `o as? t` succeeds. */
  predicate Conforms(o: Obj, t: TypeTag) {
    t in o.types
  }

  /** The last owning reference to `o` goes away. */
  function Release(live: set<Obj>, o: Obj): set<Obj> {
    live - {o}
  }
}
