/** abstutil::Counter as used by the layer builders: a map from keys to running totals,
    where a key that was never added reads as 0. */
module Counter {

  type Counter<K> = map<K, nat>

  /** The total for `k`; an absent key reads as 0 and the map is not changed. */
  function Get<K>(c: Counter<K>, k: K): (n: nat)
    ensures k in c ==> n == c[k]
    ensures k !in c ==> n == 0
  {
    if k in c then c[k] else 0
  }

  /** Inserts `k` or increments its total; adding 0 still makes `k` present. */
  function Add<K>(c: Counter<K>, k: K, amount: nat): (r: Counter<K>)
    ensures r.Keys == c.Keys + {k}
    ensures Get(r, k) == Get(c, k) + amount
    ensures forall j :: j in c && j != k ==> r[j] == c[j]
  {
    c[k := Get(c, k) + amount]
  }

  /** Seeding with 0 is idempotent: the key is present, its total unchanged. */
  lemma AddZeroSeeds<K>(c: Counter<K>, k: K)
    ensures k in Add(c, k, 0) && Get(Add(c, k, 0), k) == Get(c, k)
    ensures Add(Add(c, k, 0), k, 0) == Add(c, k, 0)
  {
  }
}
