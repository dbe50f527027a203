/** Finding another audio provider for a model: the search for the first one, and the list of all. */
module AudioRegistry {
  import opened JsText
  import opened OrderedMaps

  /** Provider ids and the model ids each lists. */
  type Registry = Entries<seq<string>>

  datatype Match = Match(provider: string, model: string)

  function Print(m: Match): string {
    m.provider + "/" + m.model
  }

  /** What a provider entry offers for a candidate. */
  function OffersOf(entry: (string, seq<string>), failed: string, candidate: string): seq<Match> {
    if entry.0 != failed && candidate in entry.1 then [Match(entry.0, candidate)] else []
  }

  function Offers(registry: Registry, failed: string, candidate: string): seq<Match> {
    if registry == [] then []
    else Offers(Init(registry), failed, candidate) + OffersOf(Last(registry), failed, candidate)
  }

  /** Every offer: candidate by candidate, each in registry order. Empty candidates are skipped. */
  function Alternates(registry: Registry, failed: string, candidates: seq<string>): seq<Match> {
    if candidates == [] then []
    else
      Alternates(registry, failed, Init(candidates))
      + if Last(candidates) == "" then [] else Offers(registry, failed, Last(candidates))
  }

  /** The distinct elements in order of first appearance, as [...new Set(xs)]. */
  function Distinct<T(==)>(xs: seq<T>): seq<T> {
    if xs == [] then []
    else
      var rest := Distinct(Init(xs));
      if Last(xs) in rest then rest else rest + [Last(xs)]
  }

  function Printed(ms: seq<Match>): seq<string> {
    seq(|ms|, i requires 0 <= i < |ms| => Print(ms[i]))
  }

  // ----- the searches -----

  method FindAlternate(registry: Registry, failed: string, candidates: seq<string>) returns (found: Option<Match>)
    ensures var all := Alternates(registry, failed, candidates);
            found == if all == [] then None else Some(all[0])
  {
    var seen: set<string> := {};
    for i := 0 to |candidates|
      invariant Alternates(registry, failed, candidates[..i]) == []
      invariant forall c :: c in seen ==> Offers(registry, failed, c) == []
    {
      var candidate := candidates[i];
      assert Init(candidates[..i + 1]) == candidates[..i];
      if candidate == "" || candidate in seen {
        continue;
      }
      seen := seen + {candidate};
      for j := 0 to |registry|
        invariant Offers(registry[..j], failed, candidate) == []
      {
        var (providerId, models) := registry[j];
        assert Init(registry[..j + 1]) == registry[..j];
        if providerId != failed && candidate in models {
          OffersPrefix(registry, failed, candidate, j + 1);
          AlternatesPrefix(registry, failed, candidates, i + 1);
          return Some(Match(providerId, candidate));
        }
      }
      assert registry[..|registry|] == registry;
    }
    assert candidates[..|candidates|] == candidates;
    return None;
  }

  lemma {:induction false} OffersPrefix(registry: Registry, failed: string, candidate: string, n: nat)
    requires n <= |registry|
    ensures Offers(registry[..n], failed, candidate) <= Offers(registry, failed, candidate)
  {
    if n < |registry| {
      OffersPrefix(Init(registry), failed, candidate, n);
      assert Init(registry)[..n] == registry[..n];
    } else {
      assert registry[..n] == registry;
    }
  }

  lemma {:induction false} AlternatesPrefix(registry: Registry, failed: string, candidates: seq<string>, n: nat)
    requires n <= |candidates|
    ensures Alternates(registry, failed, candidates[..n]) <= Alternates(registry, failed, candidates)
  {
    if n < |candidates| {
      AlternatesPrefix(registry, failed, Init(candidates), n);
      assert Init(candidates)[..n] == candidates[..n];
    } else {
      assert candidates[..n] == candidates;
    }
  }

  method ListAlternates(registry: Registry, failed: string, candidates: seq<string>) returns (ids: seq<string>)
    ensures ids == Distinct(Printed(Alternates(registry, failed, candidates)))
  {
    ids := [];
    var seen: set<string> := {};
    for i := 0 to |candidates|
      invariant ids == Distinct(Printed(Alternates(registry, failed, candidates[..i])))
      invariant forall id :: id in seen <==> id in ids
    {
      NextCandidate(registry, failed, candidates, i);
      if candidates[i] != "" {
        ids, seen := ListFor(registry, failed, candidates[i], ids, seen, Alternates(registry, failed, candidates[..i]));
      }
    }
    assert candidates[..|candidates|] == candidates;
  }

  /** The inner loop: the ids of one candidate. */
  method ListFor(
      registry: Registry, failed: string, candidate: string,
      ids0: seq<string>, seen0: set<string>, ghost before: seq<Match>)
      returns (ids: seq<string>, seen: set<string>)
    requires ids0 == Distinct(Printed(before)) && forall id :: id in seen0 <==> id in ids0
    ensures ids == Distinct(Printed(before + Offers(registry, failed, candidate)))
    ensures forall id :: id in seen <==> id in ids
  {
    ids, seen := ids0, seen0;
    assert before + Offers(registry[..0], failed, candidate) == before;
    for j := 0 to |registry|
      invariant ids == Distinct(Printed(before + Offers(registry[..j], failed, candidate)))
      invariant forall id :: id in seen <==> id in ids
    {
      var (providerId, models) := registry[j];
      ghost var now := before + Offers(registry[..j], failed, candidate);
      NextEntry(registry, failed, candidate, j, before);
      if providerId != failed && candidate in models {
        PrintedSnoc(now, Match(providerId, candidate));
        var id := Print(Match(providerId, candidate));
        if id !in seen {
          seen := seen + {id};
          ids := ids + [id];
        }
      } else {
        assert now + [] == now;
      }
    }
    assert registry[..|registry|] == registry;
  }

  lemma NextCandidate(registry: Registry, failed: string, candidates: seq<string>, i: nat)
    requires i < |candidates|
    ensures candidates[i] == "" ==>
              Alternates(registry, failed, candidates[..i + 1]) == Alternates(registry, failed, candidates[..i])
    ensures candidates[i] != "" ==>
              Alternates(registry, failed, candidates[..i + 1])
              == Alternates(registry, failed, candidates[..i]) + Offers(registry, failed, candidates[i])
  {
    assert Init(candidates[..i + 1]) == candidates[..i];
  }

  lemma NextEntry(registry: Registry, failed: string, candidate: string, j: nat, before: seq<Match>)
    requires j < |registry|
    ensures before + Offers(registry[..j + 1], failed, candidate)
         == before + Offers(registry[..j], failed, candidate) + OffersOf(registry[j], failed, candidate)
  {
    assert Init(registry[..j + 1]) == registry[..j];
    Assoc(before, Offers(registry[..j], failed, candidate), OffersOf(registry[j], failed, candidate));
  }

  lemma PrintedSnoc(ms: seq<Match>, m: Match)
    ensures Distinct(Printed(ms + [m])) ==
            if Print(m) in Distinct(Printed(ms)) then Distinct(Printed(ms)) else Distinct(Printed(ms)) + [Print(m)]
  {
    assert Init(Printed(ms + [m])) == Printed(ms) && Last(Printed(ms + [m])) == Print(m);
  }

  // ----- the two searches agree -----

  lemma {:induction false} DistinctIs<T>(xs: seq<T>)
    ensures forall x :: x in Distinct(xs) <==> x in xs
    ensures forall i, j :: 0 <= i < j < |Distinct(xs)| ==> Distinct(xs)[i] != Distinct(xs)[j]
    ensures xs != [] ==> Distinct(xs) != [] && Distinct(xs)[0] == xs[0]
  {
    if xs != [] {
      DistinctIs(Init(xs));
      assert xs == Init(xs) + [Last(xs)];
    }
  }

  /** A provider other than the failed one that lists the model. */
  predicate Serves(registry: Registry, failed: string, m: Match) {
    exists i :: 0 <= i < |registry| && registry[i].0 == m.provider != failed && m.model in registry[i].1
  }

  lemma {:induction false} OffersAre(registry: Registry, failed: string, candidate: string)
    ensures forall m :: m in Offers(registry, failed, candidate) <==>
              m.model == candidate && Serves(registry, failed, m)
  {
    if registry != [] {
      OffersAre(Init(registry), failed, candidate);
      forall m
        ensures Serves(registry, failed, m) <==>
                (Serves(Init(registry), failed, m)
                 || (Last(registry).0 == m.provider != failed && m.model in Last(registry).1))
      {
        if Serves(Init(registry), failed, m) {
          var i :| 0 <= i < |Init(registry)| && Init(registry)[i].0 == m.provider && m.model in Init(registry)[i].1;
          assert registry[i].0 == m.provider;
        }
        if Serves(registry, failed, m) {
          var i :| 0 <= i < |registry| && registry[i].0 == m.provider && m.model in registry[i].1;
          assert i < |Init(registry)| ==> Init(registry)[i].0 == m.provider;
        }
      }
    }
  }

  lemma {:induction false} AlternatesAre(registry: Registry, failed: string, candidates: seq<string>)
    ensures forall m :: m in Alternates(registry, failed, candidates) <==>
              m.model in candidates && m.model != "" && Serves(registry, failed, m)
  {
    if candidates != [] {
      AlternatesAre(registry, failed, Init(candidates));
      OffersAre(registry, failed, Last(candidates));
      assert candidates == Init(candidates) + [Last(candidates)];
    }
  }

  /** The listed ids, once each, are exactly the servable candidates; the search finds the first of the list. */
  lemma SearchesAgree(registry: Registry, failed: string, candidates: seq<string>)
    ensures var all := Alternates(registry, failed, candidates);
            var ids := Distinct(Printed(all));
            && (all == [] <==> ids == [])
            && (all != [] ==> ids[0] == Print(all[0]))
            && (forall i, j :: 0 <= i < j < |ids| ==> ids[i] != ids[j])
            && (forall id :: id in ids <==> exists m :: m in all && Print(m) == id)
  {
    var all := Alternates(registry, failed, candidates);
    DistinctIs(Printed(all));
    forall id
      ensures id in Printed(all) <==> exists m :: m in all && Print(m) == id
    {
      if id in Printed(all) {
        var i :| 0 <= i < |all| && Printed(all)[i] == id;
        assert all[i] in all;
      }
      if exists m :: m in all && Print(m) == id {
        var m :| m in all && Print(m) == id;
        var i :| 0 <= i < |all| && all[i] == m;
        assert Printed(all)[i] == id;
      }
    }
  }

  /** With slash-free provider ids a listed id names one match: the text before the first slash is the provider. */
  lemma PrintNamesOneMatch(m: Match, n: Match)
    requires '/' !in m.provider && '/' !in n.provider && Print(m) == Print(n)
    ensures m == n
  {
    IndexOfFirst(m.provider, '/', m.model);
    IndexOfFirst(n.provider, '/', n.model);
  }

  /** The provider at this place offers the candidate. */
  predicate OfferedAt(registry: Registry, failed: string, candidate: string, j: int) {
    candidate != "" && 0 <= j < |registry| && registry[j].0 != failed && candidate in registry[j].1
  }

  /** The match found: the first candidate that any provider offers, and of its providers the first. */
  lemma FirstMatch(registry: Registry, failed: string, candidates: seq<string>, i: nat, j: nat)
    requires i < |candidates| && OfferedAt(registry, failed, candidates[i], j)
    requires forall n :: 0 <= n < j ==> !OfferedAt(registry, failed, candidates[i], n)
    requires forall h, n :: 0 <= h < i ==> !OfferedAt(registry, failed, candidates[h], n)
    ensures var all := Alternates(registry, failed, candidates);
            all != [] && all[0] == Match(registry[j].0, candidates[i])
  {
    var c := candidates[i];
    NoMatch(registry, failed, candidates[..i]);
    NextCandidate(registry, failed, candidates, i);
    AlternatesPrefix(registry, failed, candidates, i + 1);
    FirstOffer(registry, failed, c, j);
  }

  lemma NoMatch(registry: Registry, failed: string, candidates: seq<string>)
    requires forall h, n :: 0 <= h < |candidates| ==> !OfferedAt(registry, failed, candidates[h], n)
    ensures Alternates(registry, failed, candidates) == []
  {
    var all := Alternates(registry, failed, candidates);
    AlternatesAre(registry, failed, candidates);
    if all != [] {
      assert all[0] in all;
      var n :| 0 <= n < |registry| && registry[n].0 == all[0].provider != failed && all[0].model in registry[n].1;
      var h :| 0 <= h < |candidates| && candidates[h] == all[0].model;
      assert OfferedAt(registry, failed, candidates[h], n);
    }
  }

  lemma FirstOffer(registry: Registry, failed: string, candidate: string, j: nat)
    requires OfferedAt(registry, failed, candidate, j)
    requires forall n :: 0 <= n < j ==> !OfferedAt(registry, failed, candidate, n)
    ensures var offers := Offers(registry, failed, candidate);
            offers != [] && offers[0] == Match(registry[j].0, candidate)
  {
    var before := Offers(registry[..j], failed, candidate);
    OffersAre(registry[..j], failed, candidate);
    if before != [] {
      assert before[0] in before;
      var n :| 0 <= n < |registry[..j]| && registry[..j][n].0 == before[0].provider != failed
               && before[0].model in registry[..j][n].1;
      assert OfferedAt(registry, failed, candidate, n);
    }
    NextEntry(registry, failed, candidate, j, []);
    OffersPrefix(registry, failed, candidate, j + 1);
    assert [] + Offers(registry[..j + 1], failed, candidate) == Offers(registry[..j + 1], failed, candidate);
  }
}
