/** JavaScript objects and Maps as entry lists: setting a present key keeps its place, a new key goes last. */
module OrderedMaps {
  import opened JsText

  type Entries<V> = seq<(string, V)>

  predicate Has<V>(m: Entries<V>, k: string) {
    exists i :: 0 <= i < |m| && m[i].0 == k
  }

  function Get<V>(m: Entries<V>, k: string): Option<V> {
    if m == [] then None else if m[0].0 == k then Some(m[0].1) else Get(m[1..], k)
  }

  function Put<V>(m: Entries<V>, k: string, v: V): Entries<V> {
    if m == [] then [(k, v)]
    else if m[0].0 == k then [(k, v)] + m[1..]
    else [m[0]] + Put(m[1..], k, v)
  }

  function Remove<V>(m: Entries<V>, k: string): Entries<V> {
    if m == [] then [] else if m[0].0 == k then m[1..] else [m[0]] + Remove(m[1..], k)
  }

  function Keys<V>(m: Entries<V>): seq<string> {
    seq(|m|, i requires 0 <= i < |m| => m[i].0)
  }

  /** No key twice. */
  predicate Unique<V>(m: Entries<V>) {
    forall i, j :: 0 <= i < j < |m| ==> m[i].0 != m[j].0
  }

  lemma {:induction false} GetHas<V>(m: Entries<V>, k: string)
    ensures Get(m, k).Some? <==> Has(m, k)
    ensures Get(m, k).Some? ==> (k, Get(m, k).value) in m
  {
    if m != [] && m[0].0 != k {
      GetHas(m[1..], k);
      assert Has(m[1..], k) ==> Has(m, k) by {
        if Has(m[1..], k) {
          var i :| 0 <= i < |m[1..]| && m[1..][i].0 == k;
          assert m[i + 1].0 == k;
        }
      }
      if Has(m, k) {
        var i :| 0 <= i < |m| && m[i].0 == k;
        assert m[1..][i - 1].0 == k;
      }
    }
  }

  /** In a list without repeated keys every entry is the one Get finds. */
  lemma {:induction false} GetEntry<V>(m: Entries<V>, i: nat)
    requires Unique(m) && i < |m|
    ensures Get(m, m[i].0) == Some(m[i].1)
  {
    if i > 0 {
      GetEntry(m[1..], i - 1);
    }
  }

  lemma {:induction false} GetPut<V>(m: Entries<V>, k: string, v: V, j: string)
    ensures Get(Put(m, k, v), j) == if j == k then Some(v) else Get(m, j)
  {
    if m != [] && m[0].0 != k {
      GetPut(m[1..], k, v, j);
    }
  }

  lemma {:induction false} PutKeys<V>(m: Entries<V>, k: string, v: V)
    ensures Has(m, k) ==> Keys(Put(m, k, v)) == Keys(m)
    ensures !Has(m, k) ==> Put(m, k, v) == m + [(k, v)]
  {
    if m != [] && m[0].0 != k {
      PutKeys(m[1..], k, v);
      GetHas(m, k);
      GetHas(m[1..], k);
      assert Keys(m) == [m[0].0] + Keys(m[1..]);
      assert Keys(Put(m, k, v)) == [m[0].0] + Keys(Put(m[1..], k, v));
      assert [m[0]] + (m[1..] + [(k, v)]) == m + [(k, v)];
    } else if m != [] {
      assert m[0].0 == k;
    }
  }

  lemma PutUnique<V>(m: Entries<V>, k: string, v: V)
    requires Unique(m)
    ensures Unique(Put(m, k, v))
  {
    PutKeys(m, k, v);
    if Has(m, k) {
      assert forall i :: 0 <= i < |m| ==> Put(m, k, v)[i].0 == Keys(Put(m, k, v))[i] && m[i].0 == Keys(m)[i];
    }
  }

  /** Setting a key to the value it has changes nothing. */
  lemma {:induction false} PutSame<V>(m: Entries<V>, k: string, v: V)
    requires Get(m, k) == Some(v)
    ensures Put(m, k, v) == m
  {
    if m[0].0 != k {
      PutSame(m[1..], k, v);
    }
  }

  lemma {:induction false} GetAppend<V>(m: Entries<V>, n: Entries<V>, k: string)
    ensures Get(m + n, k) == if Has(m, k) then Get(m, k) else Get(n, k)
  {
    GetHas(m, k);
    if m == [] {
      assert m + n == n;
    } else {
      assert (m + n)[1..] == m[1..] + n;
      if m[0].0 != k {
        GetAppend(m[1..], n, k);
        GetHas(m[1..], k);
      }
    }
  }

  /** Lists without repeated keys that look up alike are permutations of each other. */
  lemma {:induction false} SameLookups<V>(m: Entries<V>, n: Entries<V>)
    requires Unique(m) && Unique(n)
    requires forall k :: Get(m, k) == Get(n, k)
    ensures multiset(m) == multiset(n)
  {
    if m == [] {
      var k := if n == [] then "" else n[0].0;
      assert Get(m, k) == Get(n, k);
    } else {
      GetHas(n, m[0].0);
      assert Get(m, m[0].0) == Some(m[0].1);
      var i :| 0 <= i < |n| && n[i] == m[0];
      forall k
        ensures Get(m[1..], k) == Get(Without(n, i), k)
      {
        WithoutGet(n, i, k);
        WithoutGet(m, 0, k);
        assert Without(m, 0) == m[1..];
      }
      SameLookups(m[1..], Without(n, i));
      WithoutMultiset(n, i);
      assert m == [m[0]] + m[1..];
      assert m[0] in multiset(n);
    }
  }

  lemma WithoutGet<V>(m: Entries<V>, i: nat, k: string)
    requires Unique(m) && i < |m|
    ensures Unique(Without(m, i))
    ensures Get(Without(m, i), k) == if k == m[i].0 then None else Get(m, k)
  {
    assert m == m[..i] + m[i..] && m[i..][1..] == m[i + 1..];
    GetAppend(m[..i], m[i..], k);
    GetAppend(m[..i], m[i + 1..], k);
    if k == m[i].0 {
      var rest := m[i + 1..];
      assert forall j :: 0 <= j < |rest| ==> rest[j].0 != k;
      assert !Has(m[..i], k) && !Has(rest, k);
      GetHas(rest, k);
    }
  }

  // ----- several assignments in turn -----

  /** The first n assignments of a list, made in order. */
  function PutFirst<V>(m: Entries<V>, updates: Entries<V>, n: nat): Entries<V>
    requires n <= |updates|
    decreases n
  {
    if n == 0 then m else Put(PutFirst(m, updates, n - 1), updates[n - 1].0, updates[n - 1].1)
  }

  function PutAll<V>(m: Entries<V>, updates: Entries<V>): Entries<V> {
    PutFirst(m, updates, |updates|)
  }

  lemma {:induction false} GetPutFirst<V>(m: Entries<V>, updates: Entries<V>, n: nat, k: string)
    requires Unique(updates) && n <= |updates|
    ensures forall i :: 0 <= i < n && updates[i].0 == k ==> Get(PutFirst(m, updates, n), k) == Some(updates[i].1)
    ensures (forall i :: 0 <= i < n ==> updates[i].0 != k) ==> Get(PutFirst(m, updates, n), k) == Get(m, k)
  {
    if n > 0 {
      GetPutFirst(m, updates, n - 1, k);
      GetPut(PutFirst(m, updates, n - 1), updates[n - 1].0, updates[n - 1].1, k);
    }
  }

  lemma GetPutAll<V>(m: Entries<V>, updates: Entries<V>, k: string)
    requires Unique(updates)
    ensures Get(PutAll(m, updates), k) == if Has(updates, k) then Get(updates, k) else Get(m, k)
  {
    GetPutFirst(m, updates, |updates|, k);
    if Has(updates, k) {
      var i :| 0 <= i < |updates| && updates[i].0 == k;
      GetEntry(updates, i);
    }
  }

  /** Assignments that are all in place already change nothing. */
  lemma {:induction false} PutFirstSame<V>(m: Entries<V>, updates: Entries<V>, n: nat)
    requires n <= |updates|
    requires forall i :: 0 <= i < n ==> Get(m, updates[i].0) == Some(updates[i].1)
    ensures PutFirst(m, updates, n) == m
  {
    if n > 0 {
      PutFirstSame(m, updates, n - 1);
      PutSame(m, updates[n - 1].0, updates[n - 1].1);
    }
  }

  /** Making the same assignments again changes nothing. */
  lemma PutAllTwice<V>(m: Entries<V>, updates: Entries<V>)
    requires Unique(updates)
    ensures PutAll(PutAll(m, updates), updates) == PutAll(m, updates)
  {
    forall i | 0 <= i < |updates|
      ensures Get(PutAll(m, updates), updates[i].0) == Some(updates[i].1)
    {
      GetPutFirst(m, updates, |updates|, updates[i].0);
    }
    PutFirstSame(PutAll(m, updates), updates, |updates|);
  }
}
