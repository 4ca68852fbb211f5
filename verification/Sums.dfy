/** Adding up what each key of a finite map contributes, in no fixed order. */
module Sums {

  ghost function Sum<K, V>(keys: set<K>, part: K -> multiset<V>): multiset<V> {
    if keys == {} then multiset{}
    else
      var k :| k in keys;
      part(k) + Sum(keys - {k}, part)
  }

  // Any key may be taken first, so a loop may visit the keys in any order.
  lemma {:induction false} SumTake<K, V>(keys: set<K>, part: K -> multiset<V>, k: K)
    requires k in keys
    ensures Sum(keys, part) == part(k) + Sum(keys - {k}, part)
    decreases |keys|
  {
    var first :| first in keys && Sum(keys, part) == part(first) + Sum(keys - {first}, part);
    if first != k {
      SumTake(keys - {first}, part, k);
      SumTake(keys - {k}, part, first);
      assert keys - {first} - {k} == keys - {k} - {first};
    }
  }

  // One iteration of a loop that has visited done and now visits k.
  lemma SumAdd<K, V>(done: set<K>, part: K -> multiset<V>, k: K)
    requires k !in done
    ensures Sum(done + {k}, part) == Sum(done, part) + part(k)
  {
    SumTake(done + {k}, part, k);
    assert done + {k} - {k} == done;
  }

  lemma {:induction false} SumMember<K, V>(keys: set<K>, part: K -> multiset<V>, v: V)
    ensures v in Sum(keys, part) <==> exists k :: k in keys && v in part(k)
    decreases |keys|
  {
    if keys != {} {
      var k :| k in keys;
      SumTake(keys, part, k);
      SumMember(keys - {k}, part, v);
    }
  }

  lemma SumEmpty<K, V>(keys: set<K>, part: K -> multiset<V>)
    ensures Sum(keys, part) == multiset{} <==> forall k | k in keys :: part(k) == multiset{}
  {
    if Sum(keys, part) == multiset{} {
      forall k | k in keys ensures part(k) == multiset{} { SumTake(keys, part, k); }
    }
    if forall k | k in keys :: part(k) == multiset{} {
      forall v ensures v !in Sum(keys, part) { SumMember(keys, part, v); }
      assert Sum(keys, part) == multiset{};
    }
  }

  lemma InEither<T>(a: multiset<T>, b: multiset<T>, x: T)
    ensures x in a + b <==> x in a || x in b
  {
  }
}
