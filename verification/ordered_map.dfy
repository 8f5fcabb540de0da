/** An insertion-ordered map (Python's `OrderedDict`) as a sequence of
    key/value pairs read front to back: iteration visits keys in the order
    they were first inserted, and re-inserting a key keeps its place. */
module OrderedMaps {
  import opened Options

  /** The keys in iteration order. */
  function Keys<K, V>(m: seq<(K, V)>): (ks: seq<K>)
    ensures |ks| == |m|
    ensures forall i :: 0 <= i < |m| ==> ks[i] == m[i].0
  {
    seq(|m|, i requires 0 <= i < |m| => m[i].0)
  }

  /** No key occurs twice, as in a real dictionary. */
  ghost predicate DistinctKeys<K, V>(m: seq<(K, V)>) {
    forall i, j :: 0 <= i < j < |m| ==> m[i].0 != m[j].0
  }

  /** The position of the first entry with key `k`. */
  function IndexOf<K(==), V>(m: seq<(K, V)>, k: K): (i: nat)
    requires k in Keys(m)
    ensures i < |m| && m[i].0 == k
    ensures forall j :: 0 <= j < i ==> m[j].0 != k
  {
    if m[0].0 == k then 0
    else
      assert k in Keys(m[1..]) by {
        var j :| 0 <= j < |m| && Keys(m)[j] == k;
        assert Keys(m[1..])[j - 1] == k;
      }
      1 + IndexOf(m[1..], k)
  }

  /** `m[k]` / `m.get(k)`. */
  function Lookup<K(==), V>(m: seq<(K, V)>, k: K): Option<V> {
    if k in Keys(m) then Some(m[IndexOf(m, k)].1) else None
  }

  /** `m.update({k: v})`: a present key keeps its position and gets the new
      value; an absent key is appended at the end. */
  function Put<K(==,!new), V>(m: seq<(K, V)>, k: K, v: V): (r: seq<(K, V)>)
    ensures Keys(r) == if k in Keys(m) then Keys(m) else Keys(m) + [k]
    ensures forall i :: 0 <= i < |m| && m[i].0 != k ==> r[i] == m[i]
    ensures Lookup(r, k) == Some(v)
    ensures forall q :: q != k ==> Lookup(r, q) == Lookup(m, q)
    ensures DistinctKeys(m) ==> DistinctKeys(r)
  {
    if k in Keys(m) then
      var i := IndexOf(m, k);
      var r := m[i := (k, v)];
      assert Keys(r) == Keys(m);
      assert IndexOf(r, k) == i;
      forall q | q != k && q in Keys(m)
        ensures IndexOf(r, q) == IndexOf(m, q)
      {
        var j := IndexOf(m, q);
        assert r[j].0 == q;
      }
      r
    else
      var r := m + [(k, v)];
      assert Keys(r) == Keys(m) + [k];
      assert IndexOf(r, k) == |m|;
      forall q | q != k && q in Keys(m)
        ensures IndexOf(r, q) == IndexOf(m, q)
      {
        var j := IndexOf(m, q);
        assert r[j].0 == q;
      }
      r
  }
}
