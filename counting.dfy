/** Result buckets as the fuzz run keeps them: a Python dictionary from key to count,
    bumped with `d[k] = d.get(k, 0) + 1`. Python dictionaries keep their keys in
    insertion order, so a table is a list of (key, count) pairs. */
module Counting {

  type CountTable<K> = seq<(K, nat)>

  function Keys<K>(t: CountTable<K>): (ks: seq<K>)
    ensures |ks| == |t|
    ensures forall i :: 0 <= i < |t| ==> ks[i] == t[i].0
  {
    if t == [] then [] else [t[0].0] + Keys(t[1..])
  }

  predicate DistinctKeys<K(==)>(t: CountTable<K>) {
    forall i, j :: 0 <= i < j < |t| ==> t[i].0 != t[j].0
  }

  /** `d.get(k, 0)` */
  function Get<K(==)>(t: CountTable<K>, k: K): nat {
    if t == [] then 0 else if t[0].0 == k then t[0].1 else Get(t[1..], k)
  }

  /** `sum(d.values())` */
  function Sum<K>(t: CountTable<K>): nat {
    if t == [] then 0 else t[0].1 + Sum(t[1..])
  }

  /** `d[k] = d.get(k, 0) + 1`: a key already present is updated where it stands,
      an unseen key is added last (see IncrementKeys). */
  function Increment<K(==, !new)>(t: CountTable<K>, k: K): (r: CountTable<K>)
    ensures Get(r, k) == Get(t, k) + 1
    ensures forall k' :: k' != k ==> Get(r, k') == Get(t, k')
    ensures Sum(r) == Sum(t) + 1
  {
    if t == [] then [(k, 1)]
    else if t[0].0 == k then [(k, t[0].1 + 1)] + t[1..]
    else [t[0]] + Increment(t[1..], k)
  }

  /** Incrementing keeps the keys where they are and appends an unseen key. */
  lemma {:induction false} IncrementKeys<K(!new)>(t: CountTable<K>, k: K)
    ensures Keys(Increment(t, k)) == if k in Keys(t) then Keys(t) else Keys(t) + [k]
  {
    if t != [] && t[0].0 != k {
      IncrementKeys(t[1..], k);
      assert Keys(t) == [t[0].0] + Keys(t[1..]);
      assert Keys(Increment(t, k)) == [t[0].0] + Keys(Increment(t[1..], k));
    }
  }

  /** Incrementing never makes two buckets share a key. */
  lemma IncrementDistinct<K(!new)>(t: CountTable<K>, k: K)
    requires DistinctKeys(t)
    ensures DistinctKeys(Increment(t, k))
  {
    var r := Increment(t, k);
    IncrementKeys(t, k);
    forall i, j | 0 <= i < j < |r|
      ensures r[i].0 != r[j].0
    {
      assert r[i].0 == Keys(r)[i] && r[j].0 == Keys(r)[j];
      if j < |t| {
        assert Keys(r)[i] == Keys(t)[i] && Keys(r)[j] == Keys(t)[j];
      } else {
        assert k !in Keys(t) && Keys(r)[j] == k && Keys(r)[i] == Keys(t)[i];
      }
    }
  }

  /** A table whose buckets are all zero counts nothing. */
  lemma {:induction false} ZeroTable<K>(t: CountTable<K>)
    requires forall i :: 0 <= i < |t| ==> t[i].1 == 0
    ensures Sum(t) == 0
    ensures forall k :: Get(t, k) == 0
  {
    if t != [] { ZeroTable(t[1..]); }
  }

  /** How often `k` occurs in `ks`. */
  function Count<K(==)>(ks: seq<K>, k: K): nat {
    if ks == [] then 0 else Count(ks[..|ks| - 1], k) + (if ks[|ks| - 1] == k then 1 else 0)
  }

  /** The table after counting each of `ks` into `t`, first to last. */
  function TallyOf<K(==, !new)>(t: CountTable<K>, ks: seq<K>): CountTable<K> {
    if ks == [] then t else Increment(TallyOf(t, ks[..|ks| - 1]), ks[|ks| - 1])
  }

  /** One more key: counted after the others. */
  lemma TallyOfSnoc<K(!new)>(t: CountTable<K>, ks: seq<K>, k: K)
    ensures TallyOf(t, ks + [k]) == Increment(TallyOf(t, ks), k)
    ensures forall k' :: Count(ks + [k], k') == Count(ks, k') + (if k == k' then 1 else 0)
  {
    assert (ks + [k])[..|ks|] == ks;
  }

  /** Counting `ks` adds exactly `|ks|` to the total and `Count(ks, k)` to each bucket. */
  lemma {:induction false} TallyOfCounts<K(!new)>(t: CountTable<K>, ks: seq<K>)
    ensures Sum(TallyOf(t, ks)) == Sum(t) + |ks|
    ensures forall k :: Get(TallyOf(t, ks), k) == Get(t, k) + Count(ks, k)
  {
    if ks != [] {
      var init := ks[..|ks| - 1];
      TallyOfCounts(t, init);
      assert ks == init + [ks[|ks| - 1]];
    }
  }

  /** Counting `ks` keeps the existing keys first and in order, creates a bucket
      for every key seen and none for any other key, and keeps the keys distinct. */
  lemma {:induction false} TallyOfKeys<K(!new)>(t: CountTable<K>, ks: seq<K>)
    ensures Keys(t) <= Keys(TallyOf(t, ks))
    ensures DistinctKeys(t) ==> DistinctKeys(TallyOf(t, ks))
    ensures forall k :: k in ks ==> k in Keys(TallyOf(t, ks))
    ensures forall k :: k in Keys(TallyOf(t, ks)) ==> k in Keys(t) || k in ks
  {
    if ks != [] {
      var init := ks[..|ks| - 1];
      var last := ks[|ks| - 1];
      TallyOfKeys(t, init);
      IncrementKeys(TallyOf(t, init), last);
      if DistinctKeys(t) { IncrementDistinct(TallyOf(t, init), last); }
      assert ks == init + [last];
      assert forall k :: k in ks <==> k in init || k == last;
    }
  }
}
