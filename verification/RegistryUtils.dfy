/** Model strings of the media registries: the cached model index, and the flattened catalogue. */
module RegistryUtils {
  import opened JsText
  import opened OrderedMaps

  datatype Provider = Provider(nick: Option<string>, models: seq<string>)

  /** Providers by id in registry order; `nick` is the optional alias. */
  type Registry = Entries<Provider>

  datatype Parsed = Parsed(provider: Option<string>, model: Option<string>)

  datatype Listing = Listing(id: string, provider: string, model: string)

  // ----- the scan -----

  /** The first provider that lists the model. */
  function FirstOwner(registry: Registry, id: string): Option<string> {
    if registry == [] then None
    else if id in registry[0].1.models then Some(registry[0].0)
    else FirstOwner(registry[1..], id)
  }

  predicate HasNick(p: Provider) {
    p.nick.Some? && p.nick.value != ""
  }

  /** The first provider whose id, or else alias, followed by a slash begins the string. */
  function PrefixParse(registry: Registry, s: string): Option<Parsed> {
    if registry == [] then None
    else
      var (id, p) := registry[0];
      if StartsWith(s, id + "/") then Some(Parsed(Some(id), Some(s[|id| + 1..])))
      else if HasNick(p) && StartsWith(s, p.nick.value + "/")
      then Some(Parsed(Some(id), Some(s[|p.nick.value| + 1..])))
      else PrefixParse(registry[1..], s)
  }

  /** Parsing with a first-match scan for bare models; a provider with the empty id counts as none. */
  function ParseByScan(registry: Registry, modelStr: Option<string>): Parsed {
    if modelStr.None? || modelStr.value == "" then Parsed(None, None)
    else
      var s := modelStr.value;
      var prefixed := PrefixParse(registry, s);
      if prefixed.Some? then prefixed.value
      else
        var owner := FirstOwner(registry, s);
        if owner.Some? && owner.value != "" then Parsed(owner, Some(s)) else Parsed(None, Some(s))
  }

  // ----- the index -----

  /** The index answers every model id as the scan does. */
  ghost predicate IsIndex(index: map<string, string>, registry: Registry) {
    forall id: string :: FirstOwner(registry, id) == if id in index then Some(index[id]) else None
  }

  class RegistryModelIndex {
    var cached: Option<map<string, string>>

    constructor ()
      ensures cached == None
    {
      cached := None;
    }

    /** What is cached was built from this registry. */
    ghost predicate Valid(registry: Registry)
      reads this
    {
      cached.Some? ==> IsIndex(cached.value, registry)
    }

    method GetIndex(registry: Registry) returns (index: map<string, string>)
      requires Valid(registry)
      modifies this
      ensures Valid(registry) && cached == Some(index) && IsIndex(index, registry)
      ensures old(cached).Some? ==> cached == old(cached)
    {
      if cached.Some? {
        return cached.value;
      }
      index := map[];
      for i := 0 to |registry|
        invariant cached == None
        invariant IsIndex(index, registry[..i])
      {
        var (providerId, config) := registry[i];
        ghost var before := index;
        for j := 0 to |config.models|
          invariant forall id :: id in index <==> id in before || id in config.models[..j]
          invariant forall id :: id in before ==> index[id] == before[id]
          invariant forall id :: id in index && id !in before ==> index[id] == providerId
        {
          if config.models[j] !in index {
            index := index[config.models[j] := providerId];
          }
        }
        assert config.models[..|config.models|] == config.models;
        assert registry[..i + 1] == registry[..i] + [(providerId, config)];
        forall id: string {
          FirstOwnerSnoc(registry[..i], providerId, config, id);
        }
      }
      assert registry[..|registry|] == registry;
      cached := Some(index);
    }

    /** Parsing through the index gives what the scan gives, on the first call and on every later one. */
    method ParseModel(registry: Registry, modelStr: Option<string>) returns (parsed: Parsed)
      requires Valid(registry)
      modifies this
      ensures Valid(registry)
      ensures parsed == ParseByScan(registry, modelStr)
    {
      if modelStr.None? || modelStr.value == "" {
        return Parsed(None, None);
      }
      var s := modelStr.value;
      var prefixed := PrefixParse(registry, s);
      if prefixed.Some? {
        return prefixed.value;
      }
      var index := GetIndex(registry);
      if s in index && index[s] != "" {
        return Parsed(Some(index[s]), Some(s));
      }
      return Parsed(None, Some(s));
    }
  }

  lemma {:induction false} FirstOwnerSnoc(registry: Registry, id: string, p: Provider, model: string)
    ensures FirstOwner(registry + [(id, p)], model) ==
            if FirstOwner(registry, model).Some? then FirstOwner(registry, model)
            else if model in p.models then Some(id) else None
  {
    if registry == [] {
      assert registry + [(id, p)] == [(id, p)] && [(id, p)][1..] == [];
    } else {
      FirstOwnerSnoc(registry[1..], id, p, model);
      assert (registry + [(id, p)])[1..] == registry[1..] + [(id, p)];
    }
  }

  // ----- the catalogue -----

  /** The prefixes a provider's models are listed under: its id and its alias, when not empty. */
  function Prefixes(id: string, p: Provider): seq<string> {
    (if id != "" then [id] else []) + if HasNick(p) then [p.nick.value] else []
  }

  function ModelListings(id: string, prefixes: seq<string>, model: string): seq<Listing> {
    seq(|prefixes|, i requires 0 <= i < |prefixes| => Listing(prefixes[i] + "/" + model, id, model))
  }

  function ProviderListings(id: string, prefixes: seq<string>, models: seq<string>): seq<Listing> {
    if models == [] then []
    else ModelListings(id, prefixes, models[0]) + ProviderListings(id, prefixes, models[1..])
  }

  function Catalogue(registry: Registry): seq<Listing> {
    if registry == [] then []
    else ProviderListings(registry[0].0, Prefixes(registry[0].0, registry[0].1), registry[0].1.models) +
         Catalogue(registry[1..])
  }

  method GetAllModels(registry: Registry) returns (all: seq<Listing>)
    ensures all == Catalogue(registry)
  {
    all := [];
    for i := 0 to |registry|
      invariant all + Catalogue(registry[i..]) == Catalogue(registry)
    {
      var (id, p) := registry[i];
      ghost var before := all;
      all := PushProvider(all, id, p);
      assert registry[i..][1..] == registry[i + 1..];
      Assoc(before, ProviderListings(id, Prefixes(id, p), p.models), Catalogue(registry[i + 1..]));
    }
  }

  method PushProvider(before: seq<Listing>, id: string, p: Provider) returns (all: seq<Listing>)
    ensures all == before + ProviderListings(id, Prefixes(id, p), p.models)
  {
    all := before;
    var prefixes := Prefixes(id, p);
    for j := 0 to |p.models|
      invariant all + ProviderListings(id, prefixes, p.models[j..]) ==
                before + ProviderListings(id, prefixes, p.models)
    {
      ghost var was, listings := all, ModelListings(id, prefixes, p.models[j]);
      for k := 0 to |prefixes|
        invariant all == was + listings[..k]
      {
        all := all + [Listing(prefixes[k] + "/" + p.models[j], id, p.models[j])];
      }
      assert p.models[j..][1..] == p.models[j + 1..];
      Assoc(was, listings, ProviderListings(id, prefixes, p.models[j + 1..]));
    }
  }

  /** The first provider that claims a prefix as its id or alias. */
  function FirstClaim(registry: Registry, prefix: string): Option<string> {
    if registry == [] then None
    else if registry[0].0 == prefix || (HasNick(registry[0].1) && registry[0].1.nick.value == prefix)
    then Some(registry[0].0)
    else FirstClaim(registry[1..], prefix)
  }

  predicate SlashFree(registry: Registry) {
    forall i :: 0 <= i < |registry| ==>
      '/' !in registry[i].0 && (registry[i].1.nick.Some? ==> '/' !in registry[i].1.nick.value)
  }

  /** Among slash-free prefixes a scoped string begins with its own prefix only. */
  lemma OnlyOwnPrefix(prefix: string, other: string, model: string)
    requires '/' !in prefix && '/' !in other
    ensures StartsWith(prefix + "/" + model, other + "/") <==> prefix == other
  {
    var s := prefix + "/" + model;
    IndexOfFirst(prefix, '/', model);
    if StartsWith(s, other + "/") {
      IndexOfFirst(other, '/', s[|other| + 1..]);
      assert other + ['/'] + s[|other| + 1..] == s;
    } else {
      assert s[..|prefix| + 1] == prefix + "/";
    }
  }

  /** A scoped string parses to the first provider that claims its prefix. */
  lemma {:induction false} ScopedGoesToFirstClaim(registry: Registry, prefix: string, model: string)
    requires SlashFree(registry) && '/' !in prefix
    ensures PrefixParse(registry, prefix + "/" + model) ==
            var claim := FirstClaim(registry, prefix);
            if claim.Some? then Some(Parsed(claim, Some(model))) else None
  {
    if registry != [] {
      var (id, p) := registry[0];
      OnlyOwnPrefix(prefix, id, model);
      if HasNick(p) {
        OnlyOwnPrefix(prefix, p.nick.value, model);
      }
      assert (prefix + "/" + model)[|prefix| + 1..] == model;
      ScopedGoesToFirstClaim(registry[1..], prefix, model);
    }
  }

  /** A listing of a slash-free registry parses back exactly when its provider is the first to claim its prefix. */
  lemma ListingParsesBackExactly(registry: Registry, prefix: string, provider: string, model: string)
    requires SlashFree(registry) && '/' !in prefix && FirstClaim(registry, prefix).Some?
    ensures ParseByScan(registry, Some(prefix + "/" + model)) == Parsed(Some(provider), Some(model)) <==>
            FirstClaim(registry, prefix) == Some(provider)
  {
    ScopedGoesToFirstClaim(registry, prefix, model);
  }

  /** No prefix is claimed by two providers. */
  predicate DistinctPrefixes(registry: Registry) {
    forall i, j, x :: 0 <= i < j < |registry| && x in Prefixes(registry[i].0, registry[i].1) ==>
                        x !in Prefixes(registry[j].0, registry[j].1)
  }

  lemma {:induction false} OwnPrefixClaimed(registry: Registry, i: nat, prefix: string)
    requires DistinctPrefixes(registry) && i < |registry|
    requires prefix in Prefixes(registry[i].0, registry[i].1)
    ensures FirstClaim(registry, prefix) == Some(registry[i].0)
  {
    if i > 0 {
      var (id, p) := registry[0];
      assert id == prefix ==> id in Prefixes(id, p);
      assert HasNick(p) && p.nick.value == prefix ==> prefix in Prefixes(id, p);
      assert prefix !in Prefixes(id, p);
      forall a, b, x | 0 <= a < b < |registry[1..]| && x in Prefixes(registry[1..][a].0, registry[1..][a].1)
        ensures x !in Prefixes(registry[1..][b].0, registry[1..][b].1)
      {
        assert registry[1..][a] == registry[a + 1] && registry[1..][b] == registry[b + 1];
      }
      OwnPrefixClaimed(registry[1..], i - 1, prefix);
    }
  }

  lemma {:induction false} ProviderListing(id: string, prefixes: seq<string>, models: seq<string>, l: Listing)
    returns (x: string)
    requires l in ProviderListings(id, prefixes, models)
    ensures l.provider == id && x in prefixes && l.id == x + "/" + l.model
  {
    var listings := ModelListings(id, prefixes, models[0]);
    if l in listings {
      var k :| 0 <= k < |listings| && listings[k] == l;
      x := prefixes[k];
    } else {
      x := ProviderListing(id, prefixes, models[1..], l);
    }
  }

  /** Where in the registry a listing comes from, and under which prefix. */
  lemma {:induction false} CatalogueListing(registry: Registry, l: Listing) returns (i: nat, x: string)
    requires l in Catalogue(registry)
    ensures i < |registry| && x in Prefixes(registry[i].0, registry[i].1)
    ensures l.provider == registry[i].0 && l.id == x + "/" + l.model
  {
    var (id, p) := registry[0];
    if l in ProviderListings(id, Prefixes(id, p), p.models) {
      i := 0;
      x := ProviderListing(id, Prefixes(id, p), p.models, l);
    } else {
      i, x := CatalogueListing(registry[1..], l);
      i := i + 1;
    }
  }

  /** Every catalogue id, under provider id or alias, parses back to its provider and model. */
  lemma CatalogueParsesBack(registry: Registry, l: Listing)
    requires SlashFree(registry) && DistinctPrefixes(registry)
    requires l in Catalogue(registry)
    ensures ParseByScan(registry, Some(l.id)) == Parsed(Some(l.provider), Some(l.model))
  {
    var i, x := CatalogueListing(registry, l);
    OwnPrefixClaimed(registry, i, x);
    assert '/' !in x;
    ListingParsesBackExactly(registry, x, l.provider, l.model);
  }

  // ----- what a string parses to -----

  /** A provider's id, or else its non-empty alias, and a slash begin the string; this is what follows. */
  predicate Claims(id: string, p: Provider, s: string, rest: string) {
    if id + "/" <= s then s == id + "/" + rest
    else p.nick.Some? && p.nick.value != "" && s == p.nick.value + "/" + rest
  }

  predicate ClaimsNot(id: string, p: Provider, s: string) {
    !(id + "/" <= s) && (p.nick.Some? && p.nick.value != "" ==> !(p.nick.value + "/" <= s))
  }

  predicate NoneClaims(registry: Registry, s: string) {
    forall i :: 0 <= i < |registry| ==> ClaimsNot(registry[i].0, registry[i].1, s)
  }

  predicate NoneLists(registry: Registry, s: string) {
    forall i :: 0 <= i < |registry| ==> s !in registry[i].1.models
  }

  lemma {:induction false} FirstClaimFound(registry: Registry, s: string, i: nat, rest: string)
    requires i < |registry| && Claims(registry[i].0, registry[i].1, s, rest) && NoneClaims(registry[..i], s)
    ensures PrefixParse(registry, s) == Some(Parsed(Some(registry[i].0), Some(rest)))
  {
    if i > 0 {
      assert registry[..i][0] == registry[0];
      assert ClaimsNot(registry[0].0, registry[0].1, s);
      assert registry[1..][..i - 1] == registry[..i][1..];
      FirstClaimFound(registry[1..], s, i - 1, rest);
    } else {
      var (id, p) := registry[0];
      assert id + "/" <= s ==> s[|id| + 1..] == rest;
    }
  }

  lemma {:induction false} NoClaimFound(registry: Registry, s: string)
    requires NoneClaims(registry, s)
    ensures PrefixParse(registry, s) == None
  {
    if registry != [] {
      assert ClaimsNot(registry[0].0, registry[0].1, s);
      NoClaimFound(registry[1..], s);
    }
  }

  lemma {:induction false} FirstOwnerIs(registry: Registry, s: string, i: nat)
    requires i <= |registry| && NoneLists(registry[..i], s) && (i < |registry| ==> s in registry[i].1.models)
    ensures FirstOwner(registry, s) == if i < |registry| then Some(registry[i].0) else None
  {
    if i > 0 {
      assert registry[..i][0] == registry[0];
      assert registry[1..][..i - 1] == registry[..i][1..];
      FirstOwnerIs(registry[1..], s, i - 1);
    }
  }

  /** The first provider that claims the string gets what follows its prefix. */
  lemma ClaimedParses(registry: Registry, s: string, i: nat, rest: string)
    requires i < |registry| && Claims(registry[i].0, registry[i].1, s, rest) && NoneClaims(registry[..i], s)
    ensures ParseByScan(registry, Some(s)) == Parsed(Some(registry[i].0), Some(rest))
  {
    FirstClaimFound(registry, s, i, rest);
  }

  /** A string nobody claims goes whole to the first provider that lists it, unless that has the empty id. */
  lemma UnclaimedParses(registry: Registry, s: string, i: nat)
    requires s != "" && NoneClaims(registry, s)
    requires i <= |registry| && NoneLists(registry[..i], s) && (i < |registry| ==> s in registry[i].1.models)
    ensures ParseByScan(registry, Some(s)) ==
            Parsed(if i < |registry| && registry[i].0 != "" then Some(registry[i].0) else None, Some(s))
    ensures ParseByScan(registry, None) == Parsed(None, None) && ParseByScan(registry, Some("")) == Parsed(None, None)
  {
    NoClaimFound(registry, s);
    FirstOwnerIs(registry, s, i);
  }

  /** The catalogue lists every model of every provider in order: under the id, then the alias, when not empty. */
  lemma CatalogueIs(registry: Registry, id: string, nick: Option<string>, models: seq<string>, m: string)
    ensures Catalogue([]) == [] && Catalogue(registry + [(id, Provider(nick, []))]) == Catalogue(registry)
    ensures Catalogue(registry + [(id, Provider(nick, models + [m]))]) ==
            Catalogue(registry + [(id, Provider(nick, models))])
            + (if id == "" then [] else [Listing(id + "/" + m, id, m)])
            + (if nick.Some? && nick.value != "" then [Listing(nick.value + "/" + m, id, m)] else [])
  {
    var p := Provider(nick, models);
    var prefixes := Prefixes(id, p);
    CatalogueSnoc(registry, id, Provider(nick, []));
    CatalogueSnoc(registry, id, p);
    CatalogueSnoc(registry, id, Provider(nick, models + [m]));
    ListingsSnoc(id, prefixes, models, m);
    assert ProviderListings(id, prefixes, []) == [];
    OneModel(id, nick, m);
    var first := if id == "" then [] else [Listing(id + "/" + m, id, m)];
    var second := if nick.Some? && nick.value != "" then [Listing(nick.value + "/" + m, id, m)] else [];
    Assoc(Catalogue(registry), ProviderListings(id, prefixes, models), first + second);
    Assoc(Catalogue(registry + [(id, p)]), first, second);
  }

  lemma OneModel(id: string, nick: Option<string>, m: string)
    ensures ModelListings(id, Prefixes(id, Provider(nick, [])), m) ==
            (if id == "" then [] else [Listing(id + "/" + m, id, m)])
            + (if nick.Some? && nick.value != "" then [Listing(nick.value + "/" + m, id, m)] else [])
    ensures forall models :: Prefixes(id, Provider(nick, models)) == Prefixes(id, Provider(nick, []))
  {
  }

  lemma {:induction false} ListingsSnoc(id: string, prefixes: seq<string>, models: seq<string>, m: string)
    ensures ProviderListings(id, prefixes, models + [m]) ==
            ProviderListings(id, prefixes, models) + ModelListings(id, prefixes, m)
  {
    var more := models + [m];
    if models == [] {
      assert more == [m] && more[1..] == [];
    } else {
      ListingsSnoc(id, prefixes, models[1..], m);
      assert more[1..] == models[1..] + [m];
      Assoc(ModelListings(id, prefixes, models[0]), ProviderListings(id, prefixes, models[1..]),
            ModelListings(id, prefixes, m));
    }
  }

  lemma {:induction false} CatalogueSnoc(registry: Registry, id: string, p: Provider)
    ensures Catalogue(registry + [(id, p)]) == Catalogue(registry) + ProviderListings(id, Prefixes(id, p), p.models)
  {
    var more := registry + [(id, p)];
    if registry == [] {
      assert more == [(id, p)] && more[1..] == [];
    } else {
      var (first, q) := registry[0];
      CatalogueSnoc(registry[1..], id, p);
      assert more[1..] == registry[1..] + [(id, p)];
      Assoc(ProviderListings(first, Prefixes(first, q), q.models), Catalogue(registry[1..]),
            ProviderListings(id, Prefixes(id, p), p.models));
    }
  }
}
