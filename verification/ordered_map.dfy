/** A JavaScript `Map`: keys in insertion order, each at most once. The
    scheduler's wait registry is one (`this.waiting` in lib/index.js), and
    `clear` settles waiters in the order this map iterates. */
module OrderedMap {

  datatype Map<K, V> = Map(entries: seq<(K, V)>)

  /** Every key occurs once. */
  predicate Valid<K(==,!new), V>(m: Map<K, V>)
  {
    forall i, j | 0 <= i < j < |m.entries| :: m.entries[i].0 != m.entries[j].0
  }

  function Empty<K(==,!new), V>(): (m: Map<K, V>)
    ensures Valid(m)
    ensures Keys(m) == {}
  {
    Map([])
  }

  function Keys<K(==,!new), V>(m: Map<K, V>): (ks: set<K>)
    ensures forall k :: k in ks <==> exists i | 0 <= i < |m.entries| :: m.entries[i].0 == k
  {
    set i | 0 <= i < |m.entries| :: m.entries[i].0
  }

  /** Position of `k`, or -1. */
  function IndexOf<K(==,!new), V>(entries: seq<(K, V)>, k: K): (r: int)
    ensures -1 <= r < |entries|
    ensures r == -1 <==> forall i | 0 <= i < |entries| :: entries[i].0 != k
    ensures 0 <= r ==> entries[r].0 == k
  {
    if |entries| == 0 then -1
    else if entries[0].0 == k then 0
    else
      var j := IndexOf(entries[1..], k);
      if j == -1 then -1 else j + 1
  }

  /** `m.has(k)` */
  predicate Has<K(==,!new), V>(m: Map<K, V>, k: K)
  {
    IndexOf(m.entries, k) != -1
  }

  lemma HasIsKey<K(!new), V>(m: Map<K, V>, k: K)
    ensures Has(m, k) <==> k in Keys(m)
  {
  }

  /** `m.get(k)` for a key that is present. */
  function Get<K(==,!new), V>(m: Map<K, V>, k: K): (v: V)
    requires Has(m, k)
    ensures exists i | 0 <= i < |m.entries| :: m.entries[i] == (k, v)
  {
    m.entries[IndexOf(m.entries, k)].1
  }

  /** In a valid map, the entry at a key's position determines `Get`. */
  lemma GetAt<K(!new), V>(m: Map<K, V>, i: int)
    requires Valid(m) && 0 <= i < |m.entries|
    ensures Has(m, m.entries[i].0) && Get(m, m.entries[i].0) == m.entries[i].1
  {
  }

  /** `m.set(k, v)`: a present key keeps its position, a new one goes last. */
  function Set<K(==,!new), V>(m: Map<K, V>, k: K, v: V): (r: Map<K, V>)
    requires Valid(m)
    ensures Valid(r)
    ensures Keys(r) == Keys(m) + {k}
    ensures Has(r, k) && Get(r, k) == v
    ensures forall k' | k' != k && Has(m, k') :: Has(r, k') && Get(r, k') == Get(m, k')
    ensures Has(m, k) ==> r.entries == m.entries[IndexOf(m.entries, k) := (k, v)]
    ensures !Has(m, k) ==> r.entries == m.entries + [(k, v)]
  {
    var i := IndexOf(m.entries, k);
    if i == -1 then
      var r := Map(m.entries + [(k, v)]);
      SetProps(m, r, k, v, |m.entries|);
      r
    else
      var r := Map(m.entries[i := (k, v)]);
      SetProps(m, r, k, v, i);
      r
  }

  /** What `Set` needs: `r` is `m` with `(k, v)` at position `i`, which is
      either `k`'s old position or one past the end. */
  lemma SetProps<K(!new), V>(m: Map<K, V>, r: Map<K, V>, k: K, v: V, i: int)
    requires Valid(m)
    requires 0 <= i <= |m.entries|
    requires i < |m.entries| ==> m.entries[i].0 == k && r.entries == m.entries[i := (k, v)]
    requires i == |m.entries| ==> (forall j | 0 <= j < |m.entries| :: m.entries[j].0 != k) && r.entries == m.entries + [(k, v)]
    ensures Valid(r)
    ensures Keys(r) == Keys(m) + {k}
    ensures Has(r, k) && Get(r, k) == v
    ensures forall k' | k' != k && Has(m, k') :: Has(r, k') && Get(r, k') == Get(m, k')
  {
    assert forall j | 0 <= j < |r.entries| && j != i :: r.entries[j] == m.entries[j];
    assert r.entries[i] == (k, v);
    assert Keys(r) == Keys(m) + {k} by {
      forall x | x in Keys(m) ensures x in Keys(r) {
        var j :| 0 <= j < |m.entries| && m.entries[j].0 == x;
        assert r.entries[j].0 == x;
      }
    }
    GetAt(r, i);
    forall k' | k' != k && Has(m, k')
      ensures Has(r, k') && Get(r, k') == Get(m, k')
    {
      var j := IndexOf(m.entries, k');
      GetAt(m, j);
      GetAt(r, j);
    }
  }

  /** `m.delete(k)`: drops the key, keeps the order of the others. */
  function Delete<K(==,!new), V>(m: Map<K, V>, k: K): (r: Map<K, V>)
    requires Valid(m)
    ensures Valid(r)
    ensures Keys(r) == Keys(m) - {k}
    ensures forall k' | k' != k && Has(m, k') :: Has(r, k') && Get(r, k') == Get(m, k')
    ensures Has(m, k) ==> r.entries == m.entries[..IndexOf(m.entries, k)] + m.entries[IndexOf(m.entries, k) + 1..]
    ensures !Has(m, k) ==> r == m
  {
    var i := IndexOf(m.entries, k);
    if i == -1 then m
    else
      var r := Map(m.entries[..i] + m.entries[i + 1..]);
      DeleteProps(m, r, k, i);
      r
  }

  lemma DeleteProps<K(!new), V>(m: Map<K, V>, r: Map<K, V>, k: K, i: int)
    requires Valid(m)
    requires 0 <= i < |m.entries| && m.entries[i].0 == k
    requires r.entries == m.entries[..i] + m.entries[i + 1..]
    ensures Valid(r)
    ensures Keys(r) == Keys(m) - {k}
    ensures forall k' | k' != k && Has(m, k') :: Has(r, k') && Get(r, k') == Get(m, k')
  {
    DeleteKeepsValid(m, r, i);
    DeleteKeys(m, r, k, i);
    DeleteKeepsOthers(m, r, k, i);
  }

  lemma DeleteKeepsValid<K(!new), V>(m: Map<K, V>, r: Map<K, V>, i: int)
    requires Valid(m)
    requires 0 <= i < |m.entries|
    requires r.entries == m.entries[..i] + m.entries[i + 1..]
    ensures Valid(r)
  {
    forall a, b | 0 <= a < b < |r.entries| ensures r.entries[a].0 != r.entries[b].0 {
      DeleteShift(m, r, i, a);
      DeleteShift(m, r, i, b);
    }
  }

  lemma DeleteKeys<K(!new), V>(m: Map<K, V>, r: Map<K, V>, k: K, i: int)
    requires Valid(m)
    requires 0 <= i < |m.entries| && m.entries[i].0 == k
    requires r.entries == m.entries[..i] + m.entries[i + 1..]
    ensures Keys(r) == Keys(m) - {k}
  {
    forall x | x in Keys(m) - {k} ensures x in Keys(r) {
      var j :| 0 <= j < |m.entries| && m.entries[j].0 == x;
      DeleteShift(m, r, i, if j < i then j else j - 1);
    }
    forall x | x in Keys(r) ensures x in Keys(m) - {k} {
      var j :| 0 <= j < |r.entries| && r.entries[j].0 == x;
      DeleteShift(m, r, i, j);
    }
  }

  lemma DeleteKeepsOthers<K(!new), V>(m: Map<K, V>, r: Map<K, V>, k: K, i: int)
    requires Valid(m)
    requires 0 <= i < |m.entries| && m.entries[i].0 == k
    requires r.entries == m.entries[..i] + m.entries[i + 1..]
    ensures forall k' | k' != k && Has(m, k') :: Has(r, k') && Get(r, k') == Get(m, k')
  {
    DeleteKeepsValid(m, r, i);
    forall k' | k' != k && Has(m, k')
      ensures Has(r, k') && Get(r, k') == Get(m, k')
    {
      var j := IndexOf(m.entries, k');
      GetAt(m, j);
      DeleteShift(m, r, i, if j < i then j else j - 1);
      GetAt(r, if j < i then j else j - 1);
    }
  }

  /** Position `j` after deleting position `i` held position `j` or `j + 1` before. */
  lemma DeleteShift<K, V>(m: Map<K, V>, r: Map<K, V>, i: int, j: int)
    requires 0 <= i < |m.entries|
    requires r.entries == m.entries[..i] + m.entries[i + 1..]
    requires 0 <= j < |r.entries|
    ensures r.entries[j] == m.entries[if j < i then j else j + 1]
  {
  }

  /** `m.clear()` */
  function Clear<K(==,!new), V>(m: Map<K, V>): (r: Map<K, V>)
    ensures Valid(r)
    ensures Keys(r) == {}
  {
    Map([])
  }
}
