/**
 * The in-memory cache (`cache.rs`): values of any type stored under a
 * 64-bit hash of the key together with the key's type, so that keys of
 * different types never read each other's values. A stored value remembers
 * its type, and a read answers it only when that is the key's target type.
 * The hash function itself is not modelled: a cache is built with one.
 */
module Caches {
  import opened Wrappers

  newtype u64 = x: int | 0 <= x < 0x1_0000_0000_0000_0000

  /** The identity of a type (`TypeId`). */
  type TypeTag = nat

  /** A key type: its own identity and that of the values it refers to (`CacheKey::Target`). */
  datatype KeyType = KeyType(id: TypeTag, target: TypeTag)

  /** A stored value with the type it was stored as (`Box<dyn Any>`). */
  datatype Boxed<V> = Boxed(tag: TypeTag, value: V)

  /** The value in a slot, when it has the expected type (`downcast`). */
  function Unbox<V>(b: Option<Boxed<V>>, target: TypeTag): (r: Option<V>)
    ensures r.Some? <==> b.Some? && b.value.tag == target
    ensures r.Some? ==> r.value == b.value.value
  {
    match b
    case Some(Boxed(tag, value)) => if tag == target then Some(value) else None
    case None => None
  }

  /** `HashCache`: a map from hashes to boxed values. */
  class HashCache<K, V> {
    /** The hash of a key followed by its type's identity (`DefaultHasher`). */
    const hash: (K, TypeTag) -> u64
    var items: map<u64, Boxed<V>>

    function Slot(key: K, kt: KeyType): u64 {
      hash(key, kt.id)
    }

    /** `HashCache::new`: an empty cache. */
    constructor (hash: (K, TypeTag) -> u64)
      ensures this.hash == hash && items == map[]
    {
      this.hash := hash;
      items := map[];
    }

    /** `get`: the value stored under the key's slot, when it has the key's target type. */
    function Get(key: K, kt: KeyType): (r: Option<V>)
      reads this
      ensures r.Some? <==> Slot(key, kt) in items && items[Slot(key, kt)].tag == kt.target
      ensures r.Some? ==> r.value == items[Slot(key, kt)].value
    {
      Unbox(if Slot(key, kt) in items then Some(items[Slot(key, kt)]) else None, kt.target)
    }

    /**
     * `save`: the key's slot now holds the value, replacing whatever a key
     * with the same hash stored there; every other slot is unchanged.
     */
    method Save(key: K, kt: KeyType, value: V)
      modifies this
      ensures items == old(items)[Slot(key, kt) := Boxed(kt.target, value)]
      ensures Get(key, kt) == Some(value)
    {
      items := items[Slot(key, kt) := Boxed(kt.target, value)];
    }

    /**
     * `remove`: empties the key's slot, whatever type it held, and answers
     * the value when it had the key's target type; other slots are unchanged.
     */
    method Remove(key: K, kt: KeyType) returns (r: Option<V>)
      modifies this
      ensures r == old(Get(key, kt))
      ensures items == old(items) - {Slot(key, kt)}
      ensures Get(key, kt).None?
    {
      var slot := Slot(key, kt);
      var b := if slot in items then Some(items[slot]) else None;
      items := items - {slot};
      r := Unbox(b, kt.target);
    }

    /** `clear`: nothing is stored any more. */
    method Clear()
      modifies this
      ensures items == map[]
      ensures forall k, kt :: Get(k, kt).None?
    {
      items := map[];
    }
  }

  /** `DummyCache`: stores nothing. */
  class DummyCache {
    constructor ()
    {
    }

    /** `save` has no effect. */
    method Save<K, V>(key: K, kt: KeyType, value: V)
    {
    }

    /** `get` never finds anything. */
    function Get<K, V>(key: K, kt: KeyType): (r: Option<V>)
      ensures r.None?
    {
      None
    }

    /** `remove` never finds anything. */
    method Remove<K, V>(key: K, kt: KeyType) returns (r: Option<V>)
      ensures r.None?
    {
      r := None;
    }

    /** `clear` has no effect. */
    method Clear()
    {
    }
  }
}
