/** Values shared by every module. */
module Options {
  datatype Option<+T> = None | Some(value: T)

  /** How a write ends; `DoneUnseen` took effect but reports an error or is followed by a crash. */
  datatype Write = Done | DoneUnseen | Refused
  {
    predicate Applied() { !Refused? }
  }

  function Lookup<K, V>(m: map<K, V>, k: K): (v: Option<V>)
    ensures v.Some? <==> k in m
    ensures v.Some? ==> v.value == m[k]
  {
    if k in m then Some(m[k]) else None
  }

  lemma LookupsEqual<K(!new), V>(a: map<K, V>, b: map<K, V>)
    requires forall k :: Lookup(a, k) == Lookup(b, k)
    ensures a == b
  {
    forall k
      ensures k in a <==> k in b
      ensures k in a ==> a[k] == b[k]
    {
      assert Lookup(a, k) == Lookup(b, k);
    }
  }

  // ---------- machine words ----------

  const TWO_63 := 0x8000_0000_0000_0000
  const TWO_64 := 0x1_0000_0000_0000_0000

  type u64 = x: nat | x < TWO_64
}
