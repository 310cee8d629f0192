/** Values held by the map, the store itself, and Go's comma-ok map lookup. */
module Values {

  /** A Go `interface{}` value. The map never looks inside a stored value, so
      apart from the nil interface every value is an opaque payload. */
  datatype Value<T> = Nil | Box(payload: T)

  datatype Option<T> = None | Some(value: T)

  /** The `(value, exist)` pair a lookup yields. `exist` is what tells a key
      that is absent apart from a key bound to the nil interface. */
  datatype GetResult<T> = GetResult(value: Value<T>, exist: bool)

  /** The actor's private store: string keys to opaque values. */
  type Store<T> = map<string, Value<T>>

  /** `v, f := store[key]`: a missing key yields the zero interface and false. */
  function Lookup<T>(m: Store<T>, key: string): GetResult<T>
  {
    if key in m then GetResult(m[key], true) else GetResult(Nil, false)
  }

  /** Two stores are equal exactly when every key looks up alike in both. */
  lemma LookupExtensional<T>(m1: Store<T>, m2: Store<T>)
    requires forall k :: Lookup(m1, k) == Lookup(m2, k)
    ensures m1 == m2
  {
    forall k
      ensures k in m1 <==> k in m2
    {
      assert Lookup(m1, k).exist == Lookup(m2, k).exist;
    }
    forall k | k in m1
      ensures m1[k] == m2[k]
    {
      assert Lookup(m1, k).value == Lookup(m2, k).value;
    }
  }

  /** The copy a snapshot is meant to reply: every binding of the store,
      sharing no mutable state with it. Values are immutable in this model, so
      the copy is the same binding for every key, rebuilt entry by entry. */
  function DeepCopy<T>(m: Store<T>): (r: Store<T>)
    ensures forall k :: Lookup(r, k) == Lookup(m, k)
    ensures r == m
  {
    var r := map k | k in m :: m[k];
    LookupExtensional(r, m);
    r
  }
}
