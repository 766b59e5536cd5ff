/** Types shared by the modules of this project. */
module Common {
  datatype Option<+T> = None | Some(value: T)

  /** What a map holds under a key, if anything. */
  function Get<K, V>(m: map<K, V>, k: K): Option<V> {
    if k in m then Some(m[k]) else None
  }

  ghost predicate Distinct<T>(s: seq<T>) {
    forall i, j | 0 <= i < j < |s| :: s[i] != s[j]
  }

  /** Appending one fixed suffix keeps different texts different. */
  lemma SuffixInjective(a: string, b: string, suffix: string)
    requires a + suffix == b + suffix
    ensures a == b
  {
    assert |a| == |b|;
    assert a == (a + suffix)[..|a|] == (b + suffix)[..|b|] == b;
  }

  /** Maps that hold the same under every key are equal. */
  lemma SameMap<K(!new), V>(a: map<K, V>, b: map<K, V>)
    requires forall k :: Get(a, k) == Get(b, k)
    ensures a == b
  {
    forall k ensures k in a <==> k in b {
      assert Get(a, k) == Get(b, k);
    }
    forall k | k in a ensures a[k] == b[k] {
      assert Get(a, k) == Get(b, k);
    }
  }
}
