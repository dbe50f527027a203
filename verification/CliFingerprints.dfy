/** Reordering of body fields and headers to match a client's fingerprint. */
module CliFingerprints {
  import opened JsText
  import opened OrderedMaps

  // ----- the definition -----

  /** The entries whose keys are listed, in the order of each key's first place in the list. */
  function Listed<V>(m: Entries<V>, order: seq<string>): Entries<V> {
    if order == [] then []
    else
      var key := Last(order);
      Listed(m, Init(order)) + if key !in Init(order) then Found(key, Get(m, key)) else []
  }

  function Found<V>(key: string, v: Option<V>): Entries<V> {
    if v.Some? then [(key, v.value)] else []
  }

  /** The entries whose keys are not listed, in their own order. */
  function Unlisted<V>(m: Entries<V>, order: seq<string>): Entries<V> {
    if m == [] then []
    else (if m[0].0 in order then [] else [m[0]]) + Unlisted(m[1..], order)
  }

  function Ordered<V>(m: Entries<V>, order: seq<string>): Entries<V> {
    Listed(m, order) + Unlisted(m, order)
  }

  /** Place of a key in the list, |order| when it is not listed. */
  function Rank(order: seq<string>, key: string): (r: nat)
    ensures r <= |order|
    ensures r < |order| ==> order[r] == key
    ensures forall i :: 0 <= i < r ==> order[i] != key
  {
    if order == [] || order[0] == key then 0 else 1 + Rank(order[1..], key)
  }

  // ----- fields -----

  method OrderFields<V>(obj: Entries<V>, fieldOrder: seq<string>) returns (result: Entries<V>)
    requires Unique(obj)
    ensures result == if fieldOrder == [] then obj else Ordered(obj, fieldOrder)
  {
    if fieldOrder == [] {
      return obj;
    }
    result := [];
    var remaining := obj;
    UnlistedOfAll(obj, []);
    assert fieldOrder[..0] == [];
    for i := 0 to |fieldOrder|
      invariant result == Listed(obj, fieldOrder[..i])
      invariant remaining == Unlisted(obj, fieldOrder[..i])
    {
      var key := fieldOrder[i];
      assert fieldOrder[..i + 1] == fieldOrder[..i] + [key];
      UnlistedSnoc(obj, fieldOrder[..i], key);
      ListedSnoc(obj, fieldOrder[..i], key);
      var value := Get(obj, key);
      if value.Some? {
        result := Put(result, key, value.value);
        remaining := Remove(remaining, key);
      }
    }
    assert fieldOrder[..|fieldOrder|] == fieldOrder;
    OrderedLookup(obj, fieldOrder);
    result := AppendRemaining(result, remaining);
  }

  method AppendRemaining<V>(front: Entries<V>, remaining: Entries<V>) returns (result: Entries<V>)
    requires Unique(front + remaining)
    ensures result == front + remaining
  {
    result := front;
    for j := 0 to |remaining|
      invariant result == front + remaining[..j]
    {
      var whole := front + remaining;
      assert !Has(result, remaining[j].0) by {
        assert whole[|result|] == remaining[j] && whole[..|result|] == result;
      }
      PutKeys(result, remaining[j].0, remaining[j].1);
      result := Put(result, remaining[j].0, remaining[j].1);
    }
    assert remaining[..|remaining|] == remaining;
  }

  lemma ListedSnoc<V>(m: Entries<V>, order: seq<string>, key: string)
    ensures var v := Get(m, key);
            Listed(m, order + [key]) ==
            if v.Some? then Put(Listed(m, order), key, v.value) else Listed(m, order)
  {
    assert Init(order + [key]) == order;
    var listed := Listed(m, order);
    ListedLookup(m, order, key);
    GetHas(listed, key);
    if Get(m, key).Some? {
      if key in order {
        PutSame(listed, key, Get(m, key).value);
      } else {
        PutKeys(listed, key, Get(m, key).value);
      }
    }
  }

  lemma {:induction false} UnlistedSnoc<V>(m: Entries<V>, order: seq<string>, key: string)
    requires Unique(m)
    ensures Unlisted(m, order + [key]) == Remove(Unlisted(m, order), key)
    ensures Get(m, key).None? ==> Remove(Unlisted(m, order), key) == Unlisted(m, order)
  {
    if m != [] {
      UnlistedSnoc(m[1..], order, key);
      var rest := Unlisted(m[1..], order);
      if m[0].0 in order {
        assert Unlisted(m, order) == rest && Unlisted(m, order + [key]) == Unlisted(m[1..], order + [key]);
      } else if m[0].0 == key {
        UnlistedLookup(m[1..], order + [key], key);
        UnlistedLookup(m[1..], order, key);
        NoSuchKey(m[1..], key);
        assert Unlisted(m[1..], order + [key]) == rest;
        assert Unlisted(m, order) == [m[0]] + rest;
      } else {
        assert Unlisted(m, order) == [m[0]] + rest;
      }
    }
  }

  lemma NoSuchKey<V>(m: Entries<V>, key: string)
    requires forall i :: 0 <= i < |m| ==> m[i].0 != key
    ensures Get(m, key) == None
  {
    GetHas(m, key);
  }

  lemma {:induction false} ListedLookup<V>(m: Entries<V>, order: seq<string>, k: string)
    ensures Get(Listed(m, order), k) == if k in order then Get(m, k) else None
  {
    if order != [] {
      ListedLookup(m, Init(order), k);
      assert order == Init(order) + [Last(order)];
      var more := if Last(order) !in Init(order) then Found(Last(order), Get(m, Last(order))) else [];
      GetAppend(Listed(m, Init(order)), more, k);
      GetHas(Listed(m, Init(order)), k);
    }
  }

  lemma {:induction false} UnlistedLookup<V>(m: Entries<V>, order: seq<string>, k: string)
    ensures Get(Unlisted(m, order), k) == if k in order then None else Get(m, k)
    ensures forall e :: e in Unlisted(m, order) ==> e in m && e.0 !in order
  {
    if m != [] {
      UnlistedLookup(m[1..], order, k);
      if m[0].0 in order {
        assert Unlisted(m, order) == Unlisted(m[1..], order);
      } else {
        assert Unlisted(m, order)[1..] == Unlisted(m[1..], order);
      }
    }
  }

  lemma {:induction false} ListedUnique<V>(m: Entries<V>, order: seq<string>)
    ensures Unique(Listed(m, order))
    ensures forall e :: e in Listed(m, order) ==> e.0 in order && Get(m, e.0) == Some(e.1)
  {
    if order != [] {
      ListedUnique(m, Init(order));
      assert order == Init(order) + [Last(order)];
      var front := Listed(m, Init(order));
      forall i | 0 <= i < |front|
        ensures front[i].0 in Init(order)
      {
        assert front[i] in front;
      }
    }
  }

  lemma {:induction false} UnlistedUnique<V>(m: Entries<V>, order: seq<string>)
    requires Unique(m)
    ensures Unique(Unlisted(m, order))
  {
    if m != [] {
      UnlistedUnique(m[1..], order);
      UnlistedLookup(m[1..], order, m[0].0);
      var rest := Unlisted(m[1..], order);
      forall i | 0 <= i < |rest|
        ensures rest[i].0 != m[0].0
      {
        assert rest[i] in rest && rest[i] in m[1..];
      }
    }
  }

  /** Reordering neither loses nor invents an entry. */
  lemma OrderedLookup<V>(m: Entries<V>, order: seq<string>)
    requires Unique(m)
    ensures Unique(Ordered(m, order))
    ensures forall k :: Get(Ordered(m, order), k) == Get(m, k)
    ensures multiset(Ordered(m, order)) == multiset(m)
  {
    var listed, unlisted := Listed(m, order), Unlisted(m, order);
    ListedUnique(m, order);
    UnlistedUnique(m, order);
    UnlistedLookup(m, order, "");
    assert Unique(Ordered(m, order)) by {
      assert forall i :: 0 <= i < |listed| ==> listed[i] in listed;
      assert forall i :: 0 <= i < |unlisted| ==> unlisted[i] in unlisted;
    }
    forall k
      ensures Get(Ordered(m, order), k) == Get(m, k)
    {
      ListedLookup(m, order, k);
      UnlistedLookup(m, order, k);
      GetHas(listed, k);
      GetAppend(listed, unlisted, k);
    }
    SameLookups(Ordered(m, order), m);
  }

  /** Listed names come first, in the order of the list. */
  lemma {:induction false} OrderedByRank<V>(m: Entries<V>, order: seq<string>, i: nat, j: nat)
    requires i < j < |Ordered(m, order)|
    ensures Rank(order, Ordered(m, order)[i].0) <= Rank(order, Ordered(m, order)[j].0)
  {
    var listed, unlisted := Listed(m, order), Unlisted(m, order);
    if j < |listed| {
      ListedByRank(m, order, i, j);
    } else {
      UnlistedLookup(m, order, "");
      assert unlisted[j - |listed|] in unlisted;
    }
  }

  lemma {:induction false} ListedByRank<V>(m: Entries<V>, order: seq<string>, i: nat, j: nat)
    requires i < j < |Listed(m, order)|
    ensures Rank(order, Listed(m, order)[i].0) < Rank(order, Listed(m, order)[j].0)
  {
    var front := Listed(m, Init(order));
    ListedUnique(m, Init(order));
    assert order == Init(order) + [Last(order)];
    assert front[i] in front;
    RankInit(order, front[i].0);
    if j < |front| {
      ListedByRank(m, Init(order), i, j);
      assert front[j] in front;
      RankInit(order, front[j].0);
    }
  }

  lemma RankInit(order: seq<string>, key: string)
    requires order != [] && key in Init(order)
    ensures Rank(order, key) == Rank(Init(order), key) < |order| - 1
  {
    var r := Rank(Init(order), key);
    assert Init(order)[r] == order[r];
  }

  lemma {:induction false} ListedByLookup<V>(m: Entries<V>, n: Entries<V>, order: seq<string>)
    requires forall k :: Get(m, k) == Get(n, k)
    ensures Listed(m, order) == Listed(n, order)
  {
    if order != [] {
      ListedByLookup(m, n, Init(order));
    }
  }

  lemma {:induction false} UnlistedAppend<V>(m: Entries<V>, n: Entries<V>, order: seq<string>)
    ensures Unlisted(m + n, order) == Unlisted(m, order) + Unlisted(n, order)
  {
    if m == [] {
      assert m + n == n;
    } else {
      UnlistedAppend(m[1..], n, order);
      assert (m + n)[1..] == m[1..] + n;
      Assoc(if m[0].0 in order then [] else [m[0]], Unlisted(m[1..], order), Unlisted(n, order));
    }
  }

  lemma {:induction false} UnlistedOfAll<V>(m: Entries<V>, order: seq<string>)
    ensures (forall e :: e in m ==> e.0 in order) ==> Unlisted(m, order) == []
    ensures (forall e :: e in m ==> e.0 !in order) ==> Unlisted(m, order) == m
  {
    if m != [] {
      UnlistedOfAll(m[1..], order);
      assert m == [m[0]] + m[1..];
    }
  }

  /** The names that are not listed keep their order, and reordering again changes nothing. */
  lemma OrderedIdempotent<V>(m: Entries<V>, order: seq<string>)
    requires Unique(m)
    ensures Unlisted(Ordered(m, order), order) == Unlisted(m, order)
    ensures Ordered(Ordered(m, order), order) == Ordered(m, order)
  {
    OrderedLookup(m, order);
    ListedByLookup(Ordered(m, order), m, order);
    UnlistedAppend(Listed(m, order), Unlisted(m, order), order);
    ListedUnique(m, order);
    UnlistedOfAll(Listed(m, order), order);
    UnlistedLookup(m, order, "");
    UnlistedOfAll(Unlisted(m, order), order);
    assert [] + Unlisted(m, order) == Unlisted(m, order);
  }

  // ----- headers -----

  type Header = (string, string)

  /** The case-insensitive lookup: a later variant of a name replaces the entry and keeps its place. */
  function Folded(lower: string -> string, headers: Entries<string>): Entries<Header> {
    if headers == [] then []
    else Put(Folded(lower, Init(headers)), lower(Last(headers).0), Last(headers))
  }

  function LowerAll(lower: string -> string, names: seq<string>): seq<string> {
    seq(|names|, i requires 0 <= i < |names| => lower(names[i]))
  }

  function Values(m: Entries<Header>): Entries<string> {
    seq(|m|, i requires 0 <= i < |m| => m[i].1)
  }

  function OrderedHeaders(lower: string -> string, headers: Entries<string>, order: seq<string>): Entries<string> {
    if order == [] then headers
    else Values(Ordered(Folded(lower, headers), LowerAll(lower, order)))
  }

  /** The last header with the given lower-case name. */
  function LastVariant(lower: string -> string, headers: Entries<string>, name: string): Option<Header> {
    if headers == [] then None
    else if lower(Last(headers).0) == name then Some(Last(headers))
    else LastVariant(lower, Init(headers), name)
  }

  /** Every entry sits under its own lower-case name. */
  predicate Keyed(lower: string -> string, m: Entries<Header>) {
    forall i :: 0 <= i < |m| ==> m[i].0 == lower(m[i].1.0)
  }

  lemma PutKeyed(lower: string -> string, m: Entries<Header>, h: Header)
    requires Keyed(lower, m)
    ensures Keyed(lower, Put(m, lower(h.0), h))
  {
    if m != [] && m[0].0 != lower(h.0) {
      PutKeyed(lower, m[1..], h);
    }
  }

  lemma {:induction false} FoldedLookup(lower: string -> string, headers: Entries<string>)
    ensures Unique(Folded(lower, headers)) && Keyed(lower, Folded(lower, headers))
    ensures forall name :: Get(Folded(lower, headers), name) == LastVariant(lower, headers, name)
  {
    if headers != [] {
      var front, last := Folded(lower, Init(headers)), Last(headers);
      FoldedLookup(lower, Init(headers));
      PutUnique(front, lower(last.0), last);
      PutKeyed(lower, front, last);
      forall name {
        GetPut(front, lower(last.0), last, name);
      }
    }
  }

  method OrderHeaders(lower: string -> string, headers: Entries<string>, headerOrder: seq<string>)
    returns (result: Entries<string>)
    ensures result == OrderedHeaders(lower, headers, headerOrder)
  {
    if headerOrder == [] {
      return headers;
    }
    var headerMap := FoldHeaders(lower, headers);
    FoldedLookup(lower, headers);
    ghost var folded, order := headerMap, LowerAll(lower, headerOrder);
    result := [];
    UnlistedOfAll(folded, []);
    assert order[..0] == [];
    for i := 0 to |headerOrder|
      invariant result == Values(Listed(folded, order[..i]))
      invariant headerMap == Unlisted(folded, order[..i])
    {
      var key := lower(headerOrder[i]);
      assert order[i] == key && order[..i + 1] == order[..i] + [key];
      NextListed(lower, folded, order[..i], key);
      var entry := Get(headerMap, key);
      if entry.Some? {
        result := Put(result, entry.value.0, entry.value.1);
        headerMap := Remove(headerMap, key);
      }
    }
    assert order[..|headerOrder|] == order;
    ValuesOfOrdered(lower, folded, order);
    result := AppendRemaining(result, Values(headerMap));
  }

  method FoldHeaders(lower: string -> string, headers: Entries<string>) returns (headerMap: Entries<Header>)
    ensures headerMap == Folded(lower, headers)
  {
    headerMap := [];
    for i := 0 to |headers|
      invariant headerMap == Folded(lower, headers[..i])
    {
      assert Init(headers[..i + 1]) == headers[..i];
      headerMap := Put(headerMap, lower(headers[i].0), headers[i]);
    }
    assert headers[..|headers|] == headers;
  }

  lemma ValuesOfOrdered(lower: string -> string, folded: Entries<Header>, order: seq<string>)
    requires Unique(folded) && Keyed(lower, folded)
    ensures Values(Listed(folded, order)) + Values(Unlisted(folded, order)) == Values(Ordered(folded, order))
    ensures Unique(Values(Ordered(folded, order)))
  {
    OrderedKeyed(lower, folded, order);
    ValuesUnique(lower, Ordered(folded, order));
    ValuesAppend(Listed(folded, order), Unlisted(folded, order));
  }

  lemma ValuesAppend(m: Entries<Header>, n: Entries<Header>)
    ensures Values(m + n) == Values(m) + Values(n)
  {
  }

  lemma ValuesUnique(lower: string -> string, m: Entries<Header>)
    requires Unique(m) && Keyed(lower, m)
    ensures Unique(Values(m))
  {
    forall i, j | 0 <= i < j < |m|
      ensures Values(m)[i].0 != Values(m)[j].0
    {
      assert m[i].0 != m[j].0;
    }
  }

  /** One round of the loop over the fingerprint's names. */
  lemma NextListed(lower: string -> string, folded: Entries<Header>, order: seq<string>, key: string)
    requires Unique(folded) && Keyed(lower, folded)
    ensures var rest, entry := Unlisted(folded, order), Get(Unlisted(folded, order), key);
            var values := Values(Listed(folded, order));
            && Unlisted(folded, order + [key]) == (if entry.Some? then Remove(rest, key) else rest)
            && Values(Listed(folded, order + [key])) ==
               if entry.Some? then Put(values, entry.value.0, entry.value.1) else values
  {
    assert Init(order + [key]) == order;
    var entry, listed := Get(Unlisted(folded, order), key), Listed(folded, order);
    UnlistedLookup(folded, order, key);
    UnlistedSnoc(folded, order, key);
    if entry.Some? {
      FoundIsNew(lower, folded, order, key);
      PutKeys(Values(listed), entry.value.0, entry.value.1);
      assert Values(listed + [(key, entry.value)]) == Values(listed) + [entry.value];
    } else {
      RemoveAbsent(Unlisted(folded, order), key);
      assert listed + [] == listed;
    }
  }

  lemma RemoveAbsent<V>(m: Entries<V>, key: string)
    requires Get(m, key).None?
    ensures Remove(m, key) == m
  {
  }

  lemma OrderedKeyed(lower: string -> string, folded: Entries<Header>, order: seq<string>)
    requires Unique(folded) && Keyed(lower, folded)
    ensures Unique(Ordered(folded, order)) && Keyed(lower, Ordered(folded, order))
  {
    OrderedLookup(folded, order);
    var whole := Ordered(folded, order);
    forall i | 0 <= i < |whole|
      ensures whole[i].0 == lower(whole[i].1.0)
    {
      assert whole[i] in multiset(whole);
      assert whole[i] in multiset(folded);
    }
  }

  /** A header found for the next listed name differs in name from all before it. */
  lemma FoundIsNew(lower: string -> string, folded: Entries<Header>, order: seq<string>, key: string)
    requires Unique(folded) && Keyed(lower, folded)
    requires Get(Unlisted(folded, order), key).Some?
    ensures key !in order && Get(folded, key) == Get(Unlisted(folded, order), key)
    ensures !Has(Values(Listed(folded, order)), Get(folded, key).value.0)
  {
    UnlistedLookup(folded, order, key);
    ListedUnique(folded, order);
    GetHas(folded, key);
    var listed, name := Listed(folded, order), Get(folded, key).value.0;
    assert lower(name) == key;
    forall i | 0 <= i < |listed|
      ensures listed[i].1.0 != name
    {
      assert listed[i] in listed;
      GetHas(folded, listed[i].0);
    }
  }

  /**
   * One header per case-insensitive name, which is the last variant; none is lost and none invented. An empty order
   * leaves the headers as they are, variants included.
   */
  lemma OneHeaderPerName(lower: string -> string, headers: Entries<string>, order: seq<string>)
    ensures order == [] ==> OrderedHeaders(lower, headers, order) == headers
    ensures order != [] ==>
            var r := OrderedHeaders(lower, headers, order);
            && (forall i, j :: 0 <= i < j < |r| ==> lower(r[i].0) != lower(r[j].0))
            && (forall i :: 0 <= i < |r| ==> LastVariant(lower, headers, lower(r[i].0)) == Some(r[i]))
            && (forall h :: h in headers ==> exists i :: 0 <= i < |r| && lower(r[i].0) == lower(h.0))
  {
    if order != [] {
      var folded, names := Folded(lower, headers), LowerAll(lower, order);
      var whole := Ordered(folded, names);
      var r := OrderedHeaders(lower, headers, order);
      FoldedLookup(lower, headers);
      OrderedKeyed(lower, folded, names);
      OrderedLookup(folded, names);
      forall i | 0 <= i < |r|
        ensures LastVariant(lower, headers, lower(r[i].0)) == Some(r[i])
      {
        GetEntry(whole, i);
      }
      forall h | h in headers
        ensures exists i :: 0 <= i < |r| && lower(r[i].0) == lower(h.0)
      {
        VariantExists(lower, headers, h);
        GetHas(whole, lower(h.0));
        var i :| 0 <= i < |whole| && whole[i].0 == lower(h.0);
        assert lower(r[i].0) == lower(h.0);
      }
    }
  }

  lemma {:induction false} VariantExists(lower: string -> string, headers: Entries<string>, h: Header)
    requires h in headers
    ensures LastVariant(lower, headers, lower(h.0)).Some?
  {
    if lower(Last(headers).0) != lower(h.0) {
      assert headers == Init(headers) + [Last(headers)];
      VariantExists(lower, Init(headers), h);
    }
  }

  /** Listed headers come first in fingerprint order. */
  lemma HeadersByRank(lower: string -> string, headers: Entries<string>, order: seq<string>, i: nat, j: nat)
    requires order != [] && i < j < |OrderedHeaders(lower, headers, order)|
    ensures var r := OrderedHeaders(lower, headers, order); var names := LowerAll(lower, order);
            Rank(names, lower(r[i].0)) <= Rank(names, lower(r[j].0))
  {
    FoldedLookup(lower, headers);
    OrderedKeyed(lower, Folded(lower, headers), LowerAll(lower, order));
    OrderedByRank(Folded(lower, headers), LowerAll(lower, order), i, j);
  }

  lemma {:induction false} FoldedOfValues(lower: string -> string, m: Entries<Header>)
    requires Unique(m) && Keyed(lower, m)
    ensures Folded(lower, Values(m)) == m
  {
    if m != [] {
      FoldedOfValues(lower, Init(m));
      assert Init(Values(m)) == Values(Init(m));
      PutKeys(Init(m), Last(m).0, Last(m).1);
    }
  }

  /** Ordering headers twice equals ordering them once. */
  lemma HeadersIdempotent(lower: string -> string, headers: Entries<string>, order: seq<string>)
    ensures OrderedHeaders(lower, OrderedHeaders(lower, headers, order), order) == OrderedHeaders(lower, headers, order)
  {
    if order != [] {
      var folded, names := Folded(lower, headers), LowerAll(lower, order);
      FoldedLookup(lower, headers);
      OrderedKeyed(lower, folded, names);
      FoldedOfValues(lower, Ordered(folded, names));
      OrderedIdempotent(folded, names);
    }
  }

  // ----- the names that are not listed -----

  /** Where the i-th and the j-th of the unlisted entries stood. */
  lemma {:induction false} UnlistedPlaces<V>(m: Entries<V>, order: seq<string>, i: nat, j: nat)
    returns (p: nat, q: nat)
    requires i < j < |Unlisted(m, order)|
    ensures p < q < |m| && m[p] == Unlisted(m, order)[i] && m[q] == Unlisted(m, order)[j]
  {
    var rest := Unlisted(m[1..], order);
    if m[0].0 in order {
      assert Unlisted(m, order) == rest;
      p, q := UnlistedPlaces(m[1..], order, i, j);
      p, q := p + 1, q + 1;
    } else if i > 0 {
      assert Unlisted(m, order) == [m[0]] + rest;
      p, q := UnlistedPlaces(m[1..], order, i - 1, j - 1);
      p, q := p + 1, q + 1;
    } else {
      assert Unlisted(m, order) == [m[0]] + rest;
      p := 0;
      var k := UnlistedPlace(m[1..], order, j - 1);
      q := k + 1;
    }
  }

  lemma {:induction false} UnlistedPlace<V>(m: Entries<V>, order: seq<string>, i: nat) returns (p: nat)
    requires i < |Unlisted(m, order)|
    ensures p < |m| && m[p] == Unlisted(m, order)[i]
  {
    UnlistedLookup(m, order, "");
    assert Unlisted(m, order)[i] in Unlisted(m, order);
    p :| 0 <= p < |m| && m[p] == Unlisted(m, order)[i];
  }

  /** Entries whose names are not listed stand in the order they had. */
  lemma OthersKeepOrder<V>(m: Entries<V>, order: seq<string>, i: nat, j: nat) returns (p: nat, q: nat)
    requires i < j < |Ordered(m, order)|
    requires Ordered(m, order)[i].0 !in order && Ordered(m, order)[j].0 !in order
    ensures p < q < |m| && m[p] == Ordered(m, order)[i] && m[q] == Ordered(m, order)[j]
  {
    var listed := Listed(m, order);
    ListedUnique(m, order);
    forall k | 0 <= k < |listed|
      ensures Ordered(m, order)[k].0 in order
    {
      assert listed[k] in listed;
    }
    p, q := UnlistedPlaces(m, order, i - |listed|, j - |listed|);
  }

  /** The first header of a lower-case name. */
  predicate IsFirst(lower: string -> string, headers: Entries<string>, name: string, a: int) {
    && 0 <= a < |headers| && lower(headers[a].0) == name
    && forall b :: 0 <= b < a ==> lower(headers[b].0) != name
  }

  lemma {:induction false} FoldedNames(lower: string -> string, headers: Entries<string>, name: string)
    ensures Has(Folded(lower, headers), name) <==> exists h :: h in headers && lower(h.0) == name
  {
    if headers != [] {
      var front, last := Folded(lower, Init(headers)), Last(headers);
      FoldedNames(lower, Init(headers), name);
      GetPut(front, lower(last.0), last, name);
      GetHas(front, name);
      GetHas(Folded(lower, headers), name);
      assert headers == Init(headers) + [last];
    }
  }

  /** The folded entries stand in the order in which their names first appear. */
  lemma {:induction false} FoldedInOrder(lower: string -> string, headers: Entries<string>,
                                         p: nat, q: nat, a: int, b: int)
    requires p < q < |Folded(lower, headers)|
    requires IsFirst(lower, headers, Folded(lower, headers)[p].0, a)
    requires IsFirst(lower, headers, Folded(lower, headers)[q].0, b)
    ensures a < b
  {
    var init, last := Init(headers), Last(headers);
    var front := Folded(lower, init);
    var x, y := Folded(lower, headers)[p].0, Folded(lower, headers)[q].0;
    KeysAfter(front, lower(last.0), last);
    assert front[p].0 == x && Has(front, x);
    FoldedNames(lower, init, x);
    FirstInFront(lower, headers, x, a);
    if q < |front| {
      assert Has(front, y);
      FoldedNames(lower, init, y);
      FirstInFront(lower, headers, y, b);
      FoldedInOrder(lower, init, p, q, a, b);
    } else {
      FoldedNames(lower, init, y);
      forall k | 0 <= k < |init|
        ensures lower(headers[k].0) != y
      {
        assert init[k] in init;
      }
    }
  }

  lemma KeysAfter(m: Entries<Header>, k: string, h: Header)
    ensures |m| <= |Put(m, k, h)| <= |m| + 1
    ensures forall i :: 0 <= i < |m| ==> Put(m, k, h)[i].0 == m[i].0
    ensures |Put(m, k, h)| > |m| ==> !Has(m, Put(m, k, h)[|m|].0)
  {
    PutKeys(m, k, h);
    if Has(m, k) {
      assert |Keys(Put(m, k, h))| == |Keys(m)|;
      assert forall i :: 0 <= i < |m| ==> Put(m, k, h)[i].0 == Keys(Put(m, k, h))[i] && m[i].0 == Keys(m)[i];
    }
  }

  lemma FirstInFront(lower: string -> string, headers: Entries<string>, name: string, a: int)
    requires headers != [] && (exists h :: h in Init(headers) && lower(h.0) == name)
    requires IsFirst(lower, headers, name, a)
    ensures IsFirst(lower, Init(headers), name, a)
  {
    var h :| h in Init(headers) && lower(h.0) == name;
    var k :| 0 <= k < |Init(headers)| && Init(headers)[k] == h;
    assert headers[k] == h;
  }

  /** Headers whose names are not listed stand in the order in which their names first appeared. */
  lemma OtherHeadersKeepOrder(lower: string -> string, headers: Entries<string>, order: seq<string>,
                              i: nat, j: nat, a: int, b: int)
    requires order != [] && i < j < |OrderedHeaders(lower, headers, order)|
    requires var x, y := OrderedHeaders(lower, headers, order)[i].0, OrderedHeaders(lower, headers, order)[j].0;
             && (forall name :: name in order ==> lower(name) != lower(x) && lower(name) != lower(y))
             && IsFirst(lower, headers, lower(x), a) && IsFirst(lower, headers, lower(y), b)
    ensures a < b
  {
    var folded, names := Folded(lower, headers), LowerAll(lower, order);
    FoldedLookup(lower, headers);
    OrderedKeyed(lower, folded, names);
    var whole := Ordered(folded, names);
    assert whole[i].0 !in names && whole[j].0 !in names;
    var p, q := OthersKeepOrder(folded, names, i, j);
    FoldedInOrder(lower, headers, p, q, a, b);
  }
}
