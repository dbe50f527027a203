/** Catalogue ids of embedding and rerank models, and the parsers that read them back. */
module ScopedModelIds {
  import opened JsText
  import opened OrderedMaps

  datatype Model = Model(id: string, name: string, dimensions: Option<nat>)

  /** Providers by id, in registry order, with the models each lists. */
  type Registry = Entries<seq<Model>>

  /** Provider aliases, and model aliases in the order they are tried. */
  datatype Aliases = Aliases(providers: Entries<string>, models: Entries<string>)

  datatype Parsed = Parsed(provider: Option<string>, model: Option<string>)

  datatype Listing = Listing(id: string, provider: string, model: Model)

  predicate ListsModel(models: seq<Model>, id: string) {
    exists m :: m in models && m.id == id
  }

  predicate Lists(registry: Registry, provider: string, id: string) {
    Get(registry, provider).Some? && ListsModel(Get(registry, provider).value, id)
  }

  function Scope(provider: string): string {
    provider + "/"
  }

  // ----- printing -----

  function ToScopedId(provider: string, id: string): string {
    if StartsWith(id, Scope(provider)) then id else Scope(provider) + id
  }

  function Catalogue(registry: Registry): seq<Listing> {
    if registry == [] then []
    else Listings(registry[0].0, registry[0].1) + Catalogue(registry[1..])
  }

  function Listings(provider: string, models: seq<Model>): seq<Listing> {
    seq(|models|, i requires 0 <= i < |models| => Listing(ToScopedId(provider, models[i].id), provider, models[i]))
  }

  method GetAllModels(registry: Registry) returns (all: seq<Listing>)
    ensures all == Catalogue(registry)
  {
    all := [];
    for i := 0 to |registry|
      invariant all + Catalogue(registry[i..]) == Catalogue(registry)
    {
      var (provider, models) := registry[i];
      assert registry[i..][1..] == registry[i + 1..];
      Assoc(all, Listings(provider, models), Catalogue(registry[i + 1..]));
      all := PushModels(all, provider, models);
    }
  }

  /** The inner loop: the models of one provider. */
  method PushModels(before: seq<Listing>, provider: string, models: seq<Model>) returns (all: seq<Listing>)
    ensures all == before + Listings(provider, models)
  {
    all := before;
    for j := 0 to |models|
      invariant all == before + Listings(provider, models)[..j]
    {
      all := all + [Listing(ToScopedId(provider, models[j].id), provider, models[j])];
    }
  }

  // ----- parsing -----

  function ResolveProvider(aliases: Aliases, provider: string): string {
    var target := Get(aliases.providers, provider);
    if target.Some? && target.value != "" then target.value else provider
  }

  function ApplyModelAliases(models: Entries<string>, s: string): string {
    if models == [] then s
    else
      var (name, canonical) := models[0];
      if s == name then canonical
      else if '/' !in name && EndsWith(s, "/" + name)
      then (if name == "" then "" else s[..|s| - |name|]) + canonical
      else ApplyModelAliases(models[1..], s)
  }

  function Normalize(registry: Registry, aliases: Aliases, provider: string, id: string): string {
    var resolved := ResolveProvider(aliases, provider);
    if Lists(registry, resolved, id) then id
    else if Lists(registry, resolved, Scope(resolved) + id) then Scope(resolved) + id
    else if StartsWith(id, Scope(provider)) then id[|Scope(provider)|..]
    else id
  }

  /** The first provider whose id and a slash begin the string. */
  function PrefixOwner(registry: Registry, s: string): (owner: Option<string>)
    ensures owner.Some? ==> StartsWith(s, Scope(owner.value))
  {
    if registry == [] then None
    else if StartsWith(s, Scope(registry[0].0)) then Some(registry[0].0)
    else PrefixOwner(registry[1..], s)
  }

  /** The first provider that lists the model. */
  function ModelOwner(registry: Registry, id: string): Option<string> {
    if registry == [] then None
    else if ListsModel(registry[0].1, id) then Some(registry[0].0)
    else ModelOwner(registry[1..], id)
  }

  function DynamicOwner(dynamics: seq<string>, s: string): (owner: Option<string>)
    ensures owner.Some? ==> StartsWith(s, Scope(owner.value))
  {
    if dynamics == [] then None
    else if StartsWith(s, Scope(dynamics[0])) then Some(dynamics[0])
    else DynamicOwner(dynamics[1..], s)
  }

  function Bare(registry: Registry, s: string): Parsed {
    Parsed(ModelOwner(registry, s), Some(s))
  }

  function Owned(registry: Registry, aliases: Aliases, provider: string, id: string): Parsed {
    Parsed(Some(provider), Some(Normalize(registry, aliases, provider, id)))
  }

  /** `dynamics` are the ids of dynamic provider nodes. */
  function ParseEmbedding(registry: Registry, aliases: Aliases, dynamics: seq<string>, modelStr: Option<string>): Parsed
  {
    if modelStr.None? || modelStr.value == "" then Parsed(None, None)
    else ParseCanonical(registry, aliases, dynamics, ApplyModelAliases(aliases.models, modelStr.value))
  }

  /** What the embedding parser makes of a text whose model alias has been applied. */
  function ParseCanonical(registry: Registry, aliases: Aliases, dynamics: seq<string>, s: string): Parsed {
    var slash := IndexOf(s, '/');
    if 0 < slash < |s| then
      var resolved := ResolveProvider(aliases, s[..slash]);
      if Get(registry, resolved).Some? then Owned(registry, aliases, resolved, s[slash + 1..])
      else if PrefixOwner(registry, s).Some? then
        var p := PrefixOwner(registry, s).value;
        Owned(registry, aliases, p, s[|Scope(p)|..])
      else if DynamicOwner(dynamics, s).Some? then
        var p := DynamicOwner(dynamics, s).value;
        Parsed(Some(p), Some(s[|Scope(p)|..]))
      else Parsed(Some(s[..slash]), Some(s[slash + 1..]))
    else Bare(registry, s)
  }

  function ParseRerank(registry: Registry, aliases: Aliases, modelStr: Option<string>): Parsed {
    if modelStr.None? || modelStr.value == "" then Parsed(None, None)
    else
      var s := modelStr.value;
      var slash := IndexOf(s, '/');
      var resolved := if 0 < slash < |s| then ResolveProvider(aliases, s[..slash]) else "";
      if 0 < slash < |s| && Get(registry, resolved).Some? then Owned(registry, aliases, resolved, s[slash + 1..])
      else if PrefixOwner(registry, s).Some? then
        var p := PrefixOwner(registry, s).value;
        Owned(registry, aliases, p, s[|Scope(p)|..])
      else Bare(registry, s)
  }

  // ----- round trip -----

  /** No alias redirects the provider, and its id can be told apart from its models. */
  predicate PlainProvider(aliases: Aliases, provider: string) {
    provider != "" && '/' !in provider && ResolveProvider(aliases, provider) == provider
  }

  predicate SlashFree(registry: Registry) {
    forall i :: 0 <= i < |registry| ==> '/' !in registry[i].0
  }

  /** The provider lists a model both with and without its own prefix, and this is the prefixed one. */
  predicate Shadowed(registry: Registry, provider: string, id: string) {
    StartsWith(id, Scope(provider)) && Lists(registry, provider, id[|Scope(provider)|..])
  }

  lemma ScopedSlash(provider: string, rest: string)
    requires '/' !in provider
    ensures var s := Scope(provider) + rest;
            IndexOf(s, '/') == |provider| && s[..|provider|] == provider && s[|provider| + 1..] == rest
  {
    IndexOfFirst(provider, '/', rest);
    assert Scope(provider) + rest == provider + ['/'] + rest;
  }

  /** The scoped id is the scope and either the model id or what follows the prefix it already has. */
  lemma ScopedParts(provider: string, id: string)
    ensures var rest := if StartsWith(id, Scope(provider)) then id[|Scope(provider)|..] else id;
            ToScopedId(provider, id) == Scope(provider) + rest
  {
  }

  lemma NormalizeExactly(registry: Registry, aliases: Aliases, provider: string, id: string)
    requires PlainProvider(aliases, provider) && Lists(registry, provider, id)
    ensures var rest := if StartsWith(id, Scope(provider)) then id[|Scope(provider)|..] else id;
            Normalize(registry, aliases, provider, rest) == id <==> !Shadowed(registry, provider, id)
  {
    if StartsWith(id, Scope(provider)) {
      var rest := id[|Scope(provider)|..];
      assert Scope(provider) + rest == id;
      assert |rest| < |id|;
    }
  }

  /**
   * When a registered pair parses back. A provider that is an alias key does so only by accident: the
   * alias must lead to no registered provider, and the model must not carry the provider's prefix.
   */
  predicate ReadsBack(registry: Registry, aliases: Aliases, provider: string, id: string) {
    var resolved := ResolveProvider(aliases, provider);
    if resolved == provider then !Shadowed(registry, provider, id)
    else Get(registry, resolved).None? && !StartsWith(id, Scope(provider))
  }

  lemma {:induction false} PrefixOwnerOfScoped(registry: Registry, provider: string, rest: string)
    requires SlashFree(registry) && '/' !in provider && Get(registry, provider).Some?
    ensures PrefixOwner(registry, Scope(provider) + rest) == Some(provider)
  {
    ScopedSlash(provider, rest);
    var s, first := Scope(provider) + rest, registry[0].0;
    if StartsWith(s, Scope(first)) {
      ScopedSlash(first, s[|Scope(first)|..]);
      assert Scope(first) + s[|Scope(first)|..] == s;
    } else {
      assert s[..|Scope(provider)|] == Scope(provider);
      assert SlashFree(registry[1..]) by {
        assert forall i :: 0 <= i < |registry[1..]| ==> registry[1..][i] == registry[i + 1];
      }
      PrefixOwnerOfScoped(registry[1..], provider, rest);
    }
  }

  /** Without the alias's target a provider that is an alias key is still found as a prefix. */
  lemma OwnedByPrefixExactly(registry: Registry, aliases: Aliases, provider: string, id: string)
    requires Get(registry, ResolveProvider(aliases, provider)).None?
    ensures var rest := if StartsWith(id, Scope(provider)) then id[|Scope(provider)|..] else id;
            Normalize(registry, aliases, provider, rest) == id <==> !StartsWith(id, Scope(provider))
  {
  }

  /** What a model alias makes of a catalogue id; most ids it leaves alone. */
  function Rewritten(aliases: Aliases, provider: string, id: string): string {
    ApplyModelAliases(aliases.models, ToScopedId(provider, id))
  }

  /** The parser takes a text with a slash as one of this provider's. */
  predicate GoesTo(registry: Registry, aliases: Aliases, provider: string, t: string) {
    var slash := IndexOf(t, '/');
    0 < slash < |t| &&
    var resolved := ResolveProvider(aliases, t[..slash]);
    if Get(registry, resolved).Some? then resolved == provider else PrefixOwner(registry, t) == Some(provider)
  }

  /**
   * What follows the provider stands for this model: it is the model id and kept, or misses the prefix that
   * the provider's listing has, or has a prefix that no listing has.
   */
  predicate StandsFor(registry: Registry, aliases: Aliases, provider: string, rest: string, id: string) {
    var resolved := ResolveProvider(aliases, provider);
    var whole, scoped := Lists(registry, resolved, rest), Lists(registry, resolved, Scope(resolved) + rest);
    || (rest == id && (whole || (!scoped && !StartsWith(rest, Scope(provider)))))
    || (Scope(resolved) + rest == id && scoped && !whole)
    || (rest == Scope(provider) + id && !whole && !scoped)
  }

  /** When a pair whose catalogue id a model alias rewrites parses back: the new text must lead back by itself. */
  predicate RewrittenReadsBack(registry: Registry, aliases: Aliases, provider: string, id: string, t: string) {
    var slash := IndexOf(t, '/');
    if 0 < slash < |t| then
      GoesTo(registry, aliases, provider, t) && StandsFor(registry, aliases, provider, t[slash + 1..], id)
    else t == id && ModelOwner(registry, t) == Some(provider)
  }

  /** The condition for the embedding parser, which tries model aliases first. */
  predicate EmbeddingReadsBack(registry: Registry, aliases: Aliases, provider: string, id: string) {
    var t := Rewritten(aliases, provider, id);
    if t == ToScopedId(provider, id) then ReadsBack(registry, aliases, provider, id)
    else RewrittenReadsBack(registry, aliases, provider, id, t)
  }

  lemma StandsForExactly(registry: Registry, aliases: Aliases, provider: string, rest: string, id: string)
    ensures Normalize(registry, aliases, provider, rest) == id <==> StandsFor(registry, aliases, provider, rest, id)
  {
    var resolved := ResolveProvider(aliases, provider);
    assert |Scope(resolved) + rest| > |rest|;
    if StartsWith(rest, Scope(provider)) {
      assert rest == Scope(provider) + rest[|Scope(provider)|..];
    }
  }

  lemma {:induction false} RegisteredPrefixHasOwner(registry: Registry, provider: string, t: string)
    requires Get(registry, provider).Some? && StartsWith(t, Scope(provider))
    ensures PrefixOwner(registry, t).Some?
  {
    if registry[0].0 != provider {
      RegisteredPrefixHasOwner(registry[1..], provider, t);
    }
  }

  /** Behind a slash-free provider the text splits at its first slash. */
  lemma OwnedSplitsAtSlash(provider: string, t: string)
    requires '/' !in provider && StartsWith(t, Scope(provider))
    ensures IndexOf(t, '/') == |provider| && t[..|provider|] == provider && |provider| < |t|
    ensures t[|Scope(provider)|..] == t[|provider| + 1..]
  {
    assert t == Scope(provider) + t[|Scope(provider)|..];
    ScopedSlash(provider, t[|Scope(provider)|..]);
  }

  /** A text, alias or not, parses to a registered pair exactly when it leads to provider and model by itself. */
  lemma TextParsesToExactly(registry: Registry, aliases: Aliases, dynamics: seq<string>, provider: string, id: string,
                            modelStr: string)
    requires provider != "" && '/' !in provider && Lists(registry, provider, id) && modelStr != ""
    ensures var t := ApplyModelAliases(aliases.models, modelStr);
            (ParseEmbedding(registry, aliases, dynamics, Some(modelStr)) == Parsed(Some(provider), Some(id)))
            <==> RewrittenReadsBack(registry, aliases, provider, id, t)
  {
    CanonicalParsesToExactly(registry, aliases, dynamics, provider, id, ApplyModelAliases(aliases.models, modelStr));
  }

  lemma CanonicalParsesToExactly(registry: Registry, aliases: Aliases, dynamics: seq<string>, provider: string,
                                 id: string, t: string)
    requires provider != "" && '/' !in provider && Get(registry, provider).Some?
    ensures (ParseCanonical(registry, aliases, dynamics, t) == Parsed(Some(provider), Some(id)))
            <==> RewrittenReadsBack(registry, aliases, provider, id, t)
  {
    var slash := IndexOf(t, '/');
    if 0 < slash < |t| {
      var resolved := ResolveProvider(aliases, t[..slash]);
      if Get(registry, resolved).Some? {
        StandsForExactly(registry, aliases, provider, t[slash + 1..], id);
      } else if PrefixOwner(registry, t) == Some(provider) {
        OwnedSplitsAtSlash(provider, t);
        StandsForExactly(registry, aliases, provider, t[slash + 1..], id);
      } else if PrefixOwner(registry, t).None? {
        UnownedGoesElsewhere(registry, aliases, dynamics, provider, t);
      }
    }
  }

  /** A registered provider gets no text that no registered provider's prefix begins. */
  lemma UnownedGoesElsewhere(registry: Registry, aliases: Aliases, dynamics: seq<string>, provider: string, t: string)
    requires '/' !in provider && Get(registry, provider).Some?
    requires 0 < IndexOf(t, '/') < |t| && PrefixOwner(registry, t).None?
    requires Get(registry, ResolveProvider(aliases, t[..IndexOf(t, '/')])).None?
    ensures ParseCanonical(registry, aliases, dynamics, t).provider != Some(provider)
  {
    HeadIsScope(t);
    if StartsWith(t, Scope(provider)) {
      RegisteredPrefixHasOwner(registry, provider, t);
    }
  }

  lemma HeadIsScope(t: string)
    requires IndexOf(t, '/') < |t|
    ensures var slash := IndexOf(t, '/'); t[..slash + 1] == Scope(t[..slash])
  {
    HeadAndSlash(t, IndexOf(t, '/'));
  }

  lemma HeadAndSlash(t: string, i: nat)
    requires i < |t| && t[i] == '/'
    ensures t[..i + 1] == t[..i] + "/"
  {
  }

  /** A registered pair parses back from its catalogue id exactly under that condition. */
  lemma EmbeddingRoundTrip(registry: Registry, aliases: Aliases, dynamics: seq<string>, provider: string, id: string)
    requires provider != "" && '/' !in provider && Lists(registry, provider, id)
    requires ResolveProvider(aliases, provider) == provider || SlashFree(registry)
    ensures (ParseEmbedding(registry, aliases, dynamics, Some(ToScopedId(provider, id)))
             == Parsed(Some(provider), Some(id))) <==> EmbeddingReadsBack(registry, aliases, provider, id)
  {
    if Rewritten(aliases, provider, id) == ToScopedId(provider, id) {
      UntouchedRoundTrip(registry, aliases, dynamics, provider, id);
    } else {
      TextParsesToExactly(registry, aliases, dynamics, provider, id, ToScopedId(provider, id));
    }
  }

  lemma UntouchedRoundTrip(registry: Registry, aliases: Aliases, dynamics: seq<string>, provider: string, id: string)
    requires provider != "" && '/' !in provider && Lists(registry, provider, id)
    requires ResolveProvider(aliases, provider) == provider || SlashFree(registry)
    requires Rewritten(aliases, provider, id) == ToScopedId(provider, id)
    ensures (ParseEmbedding(registry, aliases, dynamics, Some(ToScopedId(provider, id)))
             == Parsed(Some(provider), Some(id))) <==> ReadsBack(registry, aliases, provider, id)
  {
    var rest := if StartsWith(id, Scope(provider)) then id[|Scope(provider)|..] else id;
    ScopedParts(provider, id);
    ScopedSlash(provider, rest);
    if ResolveProvider(aliases, provider) == provider {
      NormalizeExactly(registry, aliases, provider, id);
    } else if Get(registry, ResolveProvider(aliases, provider)).None? {
      PrefixOwnerOfScoped(registry, provider, rest);
      OwnedByPrefixExactly(registry, aliases, provider, id);
    }
  }

  /**
   * A rewritten id that stays with a plain provider reads back only if it carries the prefix twice: as the
   * prefixed model under its provider, or once more than the model, with neither of the two listed.
   */
  lemma RewrittenWithinProviderExactly(
      registry: Registry, aliases: Aliases, dynamics: seq<string>, p: string, id: string)
    requires PlainProvider(aliases, p) && Lists(registry, p, id)
    requires Rewritten(aliases, p, id) != ToScopedId(p, id) && StartsWith(Rewritten(aliases, p, id), Scope(p))
    ensures (ParseEmbedding(registry, aliases, dynamics, Some(ToScopedId(p, id))) == Parsed(Some(p), Some(id)))
            <==> PrefixedTwice(registry, p, id, Rewritten(aliases, p, id))
  {
    var t := Rewritten(aliases, p, id);
    var r := t[|Scope(p)|..];
    OwnedSplitsAtSlash(p, t);
    assert t == Scope(p) + r;
    TextParsesToExactly(registry, aliases, dynamics, p, id, ToScopedId(p, id));
    StandsForPlainExactly(registry, aliases, p, id, r);
  }

  predicate PrefixedTwice(registry: Registry, p: string, id: string, t: string) {
    && StartsWith(t, Scope(p) + Scope(p))
    && (t == Scope(p) + id
        || (t == Scope(p) + (Scope(p) + id) && !Lists(registry, p, Scope(p) + id)
            && !Lists(registry, p, Scope(p) + (Scope(p) + id))))
  }

  lemma StandsForPlainExactly(registry: Registry, aliases: Aliases, p: string, id: string, r: string)
    requires PlainProvider(aliases, p) && Lists(registry, p, id) && Scope(p) + r != ToScopedId(p, id)
    ensures StandsFor(registry, aliases, p, r, id) <==> PrefixedTwice(registry, p, id, Scope(p) + r)
  {
    TwicePrefixed(p, id, Scope(p) + r);
    SameBehindScope(p, r, id);
    SameBehindScope(p, r, Scope(p) + id);
  }

  lemma SameBehindScope(p: string, x: string, y: string)
    ensures Scope(p) + x == Scope(p) + y <==> x == y
  {
    assert (Scope(p) + x)[|Scope(p)|..] == x && (Scope(p) + y)[|Scope(p)|..] == y;
  }

  lemma TwicePrefixed(p: string, id: string, t: string)
    ensures t == Scope(p) + id && t != ToScopedId(p, id) ==> StartsWith(t, Scope(p) + Scope(p))
    ensures t == Scope(p) + (Scope(p) + id) ==> StartsWith(t, Scope(p) + Scope(p))
  {
    if StartsWith(id, Scope(p)) {
      assert Scope(p) + id == Scope(p) + Scope(p) + id[|Scope(p)|..];
    }
    assert Scope(p) + (Scope(p) + id) == Scope(p) + Scope(p) + id;
  }

  lemma RerankRoundTrip(registry: Registry, aliases: Aliases, provider: string, id: string)
    requires provider != "" && '/' !in provider && Lists(registry, provider, id)
    requires ResolveProvider(aliases, provider) == provider || SlashFree(registry)
    ensures (ParseRerank(registry, aliases, Some(ToScopedId(provider, id)))
             == Parsed(Some(provider), Some(id))) <==> ReadsBack(registry, aliases, provider, id)
  {
    var rest := if StartsWith(id, Scope(provider)) then id[|Scope(provider)|..] else id;
    ScopedParts(provider, id);
    ScopedSlash(provider, rest);
    if ResolveProvider(aliases, provider) == provider {
      NormalizeExactly(registry, aliases, provider, id);
    } else if Get(registry, ResolveProvider(aliases, provider)).None? {
      PrefixOwnerOfScoped(registry, provider, rest);
      OwnedByPrefixExactly(registry, aliases, provider, id);
    }
  }

  /** A provider that is an alias key loses its model to the alias's target once that is registered. */
  lemma AliasedProviderDiverts(p: string, q: string, m: Model)
    requires p != "" && q != "" && p != q && '/' !in p && '/' !in q
    ensures var registry, aliases := [(p, [m]), (q, [])], Aliases([(p, q)], []);
            && Lists(registry, p, m.id)
            && ParseEmbedding(registry, aliases, [], Some(ToScopedId(p, m.id))) != Parsed(Some(p), Some(m.id))
            && ParseRerank(registry, aliases, Some(ToScopedId(p, m.id))) != Parsed(Some(p), Some(m.id))
  {
    var registry, aliases := [(p, [m]), (q, [])], Aliases([(p, q)], []);
    assert Get(registry, p) == Some([m]) && m in [m];
    assert registry[1..] == [(q, [])];
    assert Get(registry[1..], q).Some? && Get(aliases.providers, p) == Some(q);
    EmbeddingRoundTrip(registry, aliases, [], p, m.id);
    RerankRoundTrip(registry, aliases, p, m.id);
  }

  /** A model whose name is a model alias: its catalogue id reads back as the alias's target. */
  lemma AliasedModelIsLost(p: string, from: string, to: string)
    requires p != "" && '/' !in p && from != "" && '/' !in from && to != from && '/' !in to
    ensures var registry, aliases := [(p, [Model(from, from, None)])], Aliases([], [(from, to)]);
            && Lists(registry, p, from) && ReadsBack(registry, aliases, p, from)
            && ParseEmbedding(registry, aliases, [], Some(ToScopedId(p, from))) == Parsed(Some(p), Some(to))
  {
    var models := [Model(from, from, None)];
    var registry, aliases := [(p, models)], Aliases([], [(from, to)]);
    assert models[0] in models;
    var s := ToScopedId(p, from);
    ScopedSlash(p, from);
    ScopedSlash(p, to);
    assert '/' in Scope(p) && s == Scope(p) + from by {
      ScopeHasSlash(p, from);
    }
    assert s == p + ("/" + from) && EndsWith(s, "/" + from) && s != from;
    assert s[..|s| - |from|] == Scope(p);
    assert ApplyModelAliases(aliases.models, s) == Scope(p) + to;
    assert !ListsModel(models, to) && !ListsModel(models, Scope(p) + to) by {
      assert forall m :: m in models ==> m.id == from;
      ScopeHasSlash(p, from);
    }
    ScopeHasSlash(p, to);
  }

  /** A provider that lists a model with and without its prefix: the prefixed one reads back as the other. */
  lemma ShadowedModelIsLost(p: string, name: string)
    requires p != "" && '/' !in p
    ensures var registry, none := [(p, [Model(name, name, None), Model(Scope(p) + name, name, None)])], Aliases([], []);
            && Lists(registry, p, Scope(p) + name)
            && ParseEmbedding(registry, none, [], Some(Scope(p) + name)) == Parsed(Some(p), Some(name))
            && ParseRerank(registry, none, Some(Scope(p) + name)) == Parsed(Some(p), Some(name))
  {
    var models := [Model(name, name, None), Model(Scope(p) + name, name, None)];
    assert models[0] in models && models[1] in models;
    ScopedSlash(p, name);
  }

  lemma {:induction false} CatalogueLists(registry: Registry, i: nat)
    requires Unique(registry) && i < |Catalogue(registry)|
    ensures var l := Catalogue(registry)[i];
            l.id == ToScopedId(l.provider, l.model.id) && Lists(registry, l.provider, l.model.id)
            && Has(registry, l.provider)
  {
    var (provider, models) := registry[0];
    var l := Catalogue(registry)[i];
    if i < |models| {
      assert models[i] in models;
    } else {
      CatalogueLists(registry[1..], i - |models|);
      GetHas(registry[1..], l.provider);
      var j :| 0 <= j < |registry[1..]| && registry[1..][j].0 == l.provider;
      assert registry[j + 1].0 == l.provider;
    }
  }

  /** Every id of the catalogue reads back, through either parser, exactly under the condition of its model. */
  lemma CatalogueReadsBackExactly(registry: Registry, aliases: Aliases, dynamics: seq<string>, i: nat)
    requires Unique(registry) && SlashFree(registry) && !Has(registry, "") && i < |Catalogue(registry)|
    ensures var l := Catalogue(registry)[i];
            var pair := Parsed(Some(l.provider), Some(l.model.id));
            && (ParseRerank(registry, aliases, Some(l.id)) == pair <==>
                ReadsBack(registry, aliases, l.provider, l.model.id))
            && (ParseEmbedding(registry, aliases, dynamics, Some(l.id)) == pair <==>
                EmbeddingReadsBack(registry, aliases, l.provider, l.model.id))
  {
    var l := Catalogue(registry)[i];
    CatalogueLists(registry, i);
    RerankRoundTrip(registry, aliases, l.provider, l.model.id);
    EmbeddingRoundTrip(registry, aliases, dynamics, l.provider, l.model.id);
  }

  /** A bare model id, listed by some provider and without slash or alias, goes to the first such provider. */
  lemma BareModelGoesToFirstOwner(registry: Registry, aliases: Aliases, dynamics: seq<string>, id: string)
    requires id != "" && '/' !in id && ApplyModelAliases(aliases.models, id) == id
    ensures ParseEmbedding(registry, aliases, dynamics, Some(id)) == Parsed(ModelOwner(registry, id), Some(id))
    ensures PrefixOwner(registry, id).None?
    ensures ParseRerank(registry, aliases, Some(id)) == Parsed(ModelOwner(registry, id), Some(id))
  {
    IndexOfAbsent(id, '/');
    NoPrefixOwner(registry, id);
  }

  lemma {:induction false} NoPrefixOwner(registry: Registry, s: string)
    requires '/' !in s
    ensures PrefixOwner(registry, s).None?
  {
    if registry != [] {
      ScopeHasSlash(registry[0].0, s);
      NoPrefixOwner(registry[1..], s);
    }
  }

  lemma ScopeHasSlash(provider: string, s: string)
    ensures StartsWith(s, Scope(provider)) ==> '/' in s
  {
    assert Scope(provider)[|provider|] == '/';
  }

  // ----- what a text parses to -----

  /** A model alias applies to itself and, when it has no slash, to every text that ends with a slash and it. */
  ghost predicate AliasHits(name: string, s: string) {
    s == name || ('/' !in name && exists head :: s == head + "/" + name)
  }

  ghost predicate IsFirstAlias(models: Entries<string>, s: string, i: int) {
    0 <= i < |models| && AliasHits(models[i].0, s) && forall j :: 0 <= j < i ==> !AliasHits(models[j].0, s)
  }

  ghost predicate NoAlias(models: Entries<string>, s: string) {
    forall i :: 0 <= i < |models| ==> !AliasHits(models[i].0, s)
  }

  lemma HitsExactly(name: string, s: string)
    ensures AliasHits(name, s) <==> s == name || ('/' !in name && EndsWith(s, "/" + name))
    ensures s != name && AliasHits(name, s) ==> s == s[..|s| - |name|] + name
  {
    var end := "/" + name;
    if EndsWith(s, end) {
      assert s == s[..|s| - |end|] + end;
      assert s == s[..|s| - |end|] + "/" + name;
    }
    if s != name && AliasHits(name, s) {
      var head :| s == head + "/" + name;
      assert s == head + end;
    }
  }

  lemma {:induction false} AliasApplied(models: Entries<string>, s: string, i: int)
    requires IsFirstAlias(models, s, i)
    ensures var (name, canonical) := models[i];
            ApplyModelAliases(models, s) ==
            if s == name then canonical
            else if name == "" then canonical
            else s[..|s| - |name|] + canonical
  {
    HitsExactly(models[0].0, s);
    if i > 0 {
      assert !AliasHits(models[0].0, s);
      AliasApplied(models[1..], s, i - 1);
    } else if models[0].0 == "" {
      assert "" + models[0].1 == models[0].1;
    }
  }

  lemma {:induction false} NoAliasApplied(models: Entries<string>, s: string)
    requires NoAlias(models, s)
    ensures ApplyModelAliases(models, s) == s
  {
    if models != [] {
      HitsExactly(models[0].0, s);
      assert !AliasHits(models[0].0, s);
      NoAliasApplied(models[1..], s);
    }
  }

  /**
   * The first model alias that applies decides: an equal one is parsed as its canonical text, and one behind a
   * slash is replaced by it. The empty alias replaces the whole text. No further alias is tried.
   */
  lemma FirstAliasDecides(registry: Registry, aliases: Aliases, dynamics: seq<string>, s: string, i: int)
    requires s != "" && IsFirstAlias(aliases.models, s, i)
    ensures var (name, canonical) := aliases.models[i];
            var t := if s == name || name == "" then canonical else s[..|s| - |name|] + canonical;
            var plain := Aliases(aliases.providers, []);
            ParseEmbedding(registry, aliases, dynamics, Some(s)) ==
            if t == "" then Parsed(ModelOwner(registry, ""), Some(""))
            else ParseEmbedding(registry, plain, dynamics, Some(t))
  {
    AliasApplied(aliases.models, s, i);
    SameBehindAliases(registry, aliases, dynamics, ApplyModelAliases(aliases.models, s));
  }

  /** Behind the model aliases only the provider aliases matter. */
  lemma SameBehindAliases(registry: Registry, aliases: Aliases, dynamics: seq<string>, t: string)
    ensures ParseCanonical(registry, aliases, dynamics, t) ==
            ParseCanonical(registry, Aliases(aliases.providers, []), dynamics, t)
  {
    var plain := Aliases(aliases.providers, []);
    var slash := IndexOf(t, '/');
    if 0 < slash < |t| {
      var resolved := ResolveProvider(aliases, t[..slash]);
      assert ResolveProvider(plain, t[..slash]) == resolved;
      SameWithoutModelAliases(registry, aliases, resolved, t[slash + 1..]);
      if PrefixOwner(registry, t).Some? {
        var p := PrefixOwner(registry, t).value;
        SameWithoutModelAliases(registry, aliases, p, t[|Scope(p)|..]);
      }
    }
  }

  lemma SameWithoutModelAliases(registry: Registry, aliases: Aliases, p: string, x: string)
    ensures Owned(registry, Aliases(aliases.providers, []), p, x) == Owned(registry, aliases, p, x)
  {
    assert ResolveProvider(Aliases(aliases.providers, []), p) == ResolveProvider(aliases, p);
  }

  /** Where a provider id leads: to the non-empty target of an alias, else to itself. */
  predicate LeadsTo(aliases: Aliases, p: string, q: string) {
    match Get(aliases.providers, p)
    case Some(target) => q == if target == "" then p else target
    case None => q == p
  }

  /** The model found for what follows a provider; its listings are those of where the provider leads. */
  ghost predicate IsModelFor(registry: Registry, aliases: Aliases, p: string, rest: string, m: string) {
    exists q :: LeadsTo(aliases, p, q) &&
      if Lists(registry, q, rest) then m == rest
      else if Lists(registry, q, q + "/" + rest) then m == q + "/" + rest
      else if p + "/" <= rest then p + "/" + m == rest
      else m == rest
  }

  lemma OwnedIs(registry: Registry, aliases: Aliases, p: string, rest: string)
    ensures var owned := Owned(registry, aliases, p, rest);
            owned.provider == Some(p) && owned.model.Some? && IsModelFor(registry, aliases, p, rest, owned.model.value)
  {
    assert LeadsTo(aliases, p, ResolveProvider(aliases, p));
  }

  /** The provider is the first whose id and a slash begin the text, and this is the rest. */
  ghost predicate IsFirstPrefix(ids: seq<string>, s: string, i: int, rest: string) {
    && 0 <= i < |ids| && s == ids[i] + "/" + rest
    && forall j :: 0 <= j < i ==> !(ids[j] + "/" <= s)
  }

  predicate NoPrefix(ids: seq<string>, s: string) {
    forall i :: 0 <= i < |ids| ==> !(ids[i] + "/" <= s)
  }

  lemma {:induction false} PrefixOwnerIs(registry: Registry, s: string)
    ensures NoPrefix(Keys(registry), s) ==> PrefixOwner(registry, s) == None
    ensures forall i, rest :: IsFirstPrefix(Keys(registry), s, i, rest) ==>
              PrefixOwner(registry, s) == Some(registry[i].0)
  {
    if registry != [] {
      var ids := Keys(registry);
      PrefixOwnerIs(registry[1..], s);
      assert ids == [registry[0].0] + Keys(registry[1..]);
      PrefixStep(ids, s);
    }
  }

  lemma PrefixStep(ids: seq<string>, s: string)
    requires ids != []
    ensures NoPrefix(ids, s) <==> !(ids[0] + "/" <= s) && NoPrefix(ids[1..], s)
    ensures forall i, rest :: IsFirstPrefix(ids, s, i, rest) ==>
              if i == 0 then ids[0] + "/" <= s
              else !(ids[0] + "/" <= s) && IsFirstPrefix(ids[1..], s, i - 1, rest)
  {
    assert forall i :: 0 < i < |ids| ==> ids[i] == ids[1..][i - 1];
  }

  lemma {:induction false} DynamicOwnerIs(dynamics: seq<string>, s: string)
    ensures NoPrefix(dynamics, s) ==> DynamicOwner(dynamics, s) == None
    ensures forall i, rest :: IsFirstPrefix(dynamics, s, i, rest) ==> DynamicOwner(dynamics, s) == Some(dynamics[i])
  {
    if dynamics != [] {
      DynamicOwnerIs(dynamics[1..], s);
      PrefixStep(dynamics, s);
    }
  }

  /** The first provider in registry order that lists the model. */
  predicate IsFirstLister(registry: Registry, id: string, i: int) {
    0 <= i < |registry| && ListsModel(registry[i].1, id) && NoLister(registry[..i], id)
  }

  predicate NoLister(registry: Registry, id: string) {
    forall i :: 0 <= i < |registry| ==> !ListsModel(registry[i].1, id)
  }

  lemma {:induction false} NoListerNoOwner(registry: Registry, id: string)
    requires NoLister(registry, id)
    ensures ModelOwner(registry, id) == None
  {
    if registry != [] {
      NoListerNoOwner(registry[1..], id);
    }
  }

  lemma {:induction false} FirstListerOwns(registry: Registry, id: string, i: int)
    requires IsFirstLister(registry, id, i)
    ensures ModelOwner(registry, id) == Some(registry[i].0)
  {
    if i > 0 {
      assert registry[..i][0] == registry[0];
      assert registry[1..][..i - 1] == registry[..i][1..];
      FirstListerOwns(registry[1..], id, i - 1);
    }
  }

  /** The parsed provider and, behind it, the model for the rest of the text. */
  ghost predicate ParsesUnder(registry: Registry, aliases: Aliases, parsed: Parsed, p: string, rest: string) {
    parsed.provider == Some(p) && parsed.model.Some? && IsModelFor(registry, aliases, p, rest, parsed.model.value)
  }

  /** A text whose first segment leads to a registered provider goes there, with either parser. */
  lemma RegisteredHeadParses(registry: Registry, aliases: Aliases, dynamics: seq<string>, head: string, rest: string,
                             r: string)
    requires head != "" && '/' !in head && LeadsTo(aliases, head, r) && Has(registry, r)
    ensures ParsesUnder(registry, aliases, ParseRerank(registry, aliases, Some(head + "/" + rest)), r, rest)
    ensures NoAlias(aliases.models, head + "/" + rest) ==>
              ParsesUnder(registry, aliases,
                          ParseEmbedding(registry, aliases, dynamics, Some(head + "/" + rest)), r, rest)
  {
    var s := head + "/" + rest;
    SlashSplits(head, rest);
    GetHas(registry, r);
    OwnedIs(registry, aliases, r, rest);
    if NoAlias(aliases.models, s) {
      NoAliasApplied(aliases.models, s);
    }
  }

  lemma SlashSplits(head: string, rest: string)
    requires '/' !in head
    ensures var s := head + "/" + rest;
            IndexOf(s, '/') == |head| && s[..|head|] == head && s[|head| + 1..] == rest
  {
    IndexOfFirst(head, '/', rest);
    assert head + "/" + rest == head + ['/'] + rest;
  }

  /** Otherwise the first registered provider whose id and a slash begin the text. */
  lemma PrefixProviderParses(registry: Registry, aliases: Aliases, dynamics: seq<string>, head: string, tail: string,
                             r: string, i: int, rest: string)
    requires head != "" && '/' !in head && LeadsTo(aliases, head, r) && !Has(registry, r)
    requires IsFirstPrefix(Keys(registry), head + "/" + tail, i, rest)
    ensures ParsesUnder(registry, aliases, ParseRerank(registry, aliases, Some(head + "/" + tail)),
                        registry[i].0, rest)
    ensures NoAlias(aliases.models, head + "/" + tail) ==>
              ParsesUnder(registry, aliases,
                          ParseEmbedding(registry, aliases, dynamics, Some(head + "/" + tail)), registry[i].0, rest)
  {
    var s := head + "/" + tail;
    SlashSplits(head, tail);
    GetHas(registry, r);
    PrefixOwnerIs(registry, s);
    OwnedIs(registry, aliases, registry[i].0, rest);
    assert s[|Scope(registry[i].0)|..] == rest;
    if NoAlias(aliases.models, s) {
      NoAliasApplied(aliases.models, s);
    }
  }

  /**
   * Without a registered provider the embedding parser takes the first dynamic provider whose id and a slash
   * begin the text, and without one of those the first segment; the rerank parser looks for the whole text.
   */
  lemma UnregisteredHeadParses(registry: Registry, aliases: Aliases, dynamics: seq<string>, head: string, tail: string,
                               r: string)
    requires head != "" && '/' !in head && LeadsTo(aliases, head, r) && !Has(registry, r)
    requires NoPrefix(Keys(registry), head + "/" + tail)
    ensures ParseRerank(registry, aliases, Some(head + "/" + tail)) ==
            Parsed(ModelOwner(registry, head + "/" + tail), Some(head + "/" + tail))
    ensures NoAlias(aliases.models, head + "/" + tail) ==>
              var parsed := ParseEmbedding(registry, aliases, dynamics, Some(head + "/" + tail));
              && (forall i, rest :: IsFirstPrefix(dynamics, head + "/" + tail, i, rest) ==>
                    parsed == Parsed(Some(dynamics[i]), Some(rest)))
              && (NoPrefix(dynamics, head + "/" + tail) ==> parsed == Parsed(Some(head), Some(tail)))
  {
    var s := head + "/" + tail;
    SlashSplits(head, tail);
    GetHas(registry, r);
    PrefixOwnerIs(registry, s);
    DynamicOwnerIs(dynamics, s);
    if NoAlias(aliases.models, s) {
      NoAliasApplied(aliases.models, s);
      forall i, rest | IsFirstPrefix(dynamics, s, i, rest)
        ensures s[|Scope(dynamics[i])|..] == rest
      {
      }
    }
  }

  /** A text without a first segment goes whole to the first provider listing it, and to none without one. */
  lemma HeadlessTextParses(registry: Registry, aliases: Aliases, dynamics: seq<string>, s: string)
    requires s != "" && ('/' !in s || s[0] == '/') && NoAlias(aliases.models, s)
    ensures NoLister(registry, s) ==> ParseEmbedding(registry, aliases, dynamics, Some(s)) == Parsed(None, Some(s))
    ensures forall i :: IsFirstLister(registry, s, i) ==>
              ParseEmbedding(registry, aliases, dynamics, Some(s)) == Parsed(Some(registry[i].0), Some(s))
  {
    NoAliasApplied(aliases.models, s);
    OwnerIs(registry, s);
    if '/' !in s {
      IndexOfAbsent(s, '/');
    }
  }

  lemma OwnerIs(registry: Registry, s: string)
    ensures NoLister(registry, s) ==> ModelOwner(registry, s) == None
    ensures forall i :: IsFirstLister(registry, s, i) ==> ModelOwner(registry, s) == Some(registry[i].0)
  {
    if NoLister(registry, s) {
      NoListerNoOwner(registry, s);
    }
    forall i | IsFirstLister(registry, s, i)
      ensures ModelOwner(registry, s) == Some(registry[i].0)
    {
      FirstListerOwns(registry, s, i);
    }
  }

  /** No text, or an empty one, has neither provider nor model. */
  lemma NoTextParses(registry: Registry, aliases: Aliases, dynamics: seq<string>, text: Option<string>)
    requires text == None || text == Some("")
    ensures ParseEmbedding(registry, aliases, dynamics, text) == Parsed(None, None)
    ensures ParseRerank(registry, aliases, text) == Parsed(None, None)
  {
  }

  /** The catalogue lists every model of every provider in order, under its id with the provider in front once. */
  lemma CatalogueIs(registry: Registry, p: string, models: seq<Model>, m: Model)
    ensures Catalogue([]) == [] && Catalogue(registry + [(p, [])]) == Catalogue(registry)
    ensures Catalogue(registry + [(p, models + [m])]) ==
            Catalogue(registry + [(p, models)]) + [Listing(if p + "/" <= m.id then m.id else p + "/" + m.id, p, m)]
  {
    CatalogueSnoc(registry, p, []);
    CatalogueSnoc(registry, p, models);
    CatalogueSnoc(registry, p, models + [m]);
    assert Listings(p, []) == [] && Listings(p, models + [m]) == Listings(p, models) + Listings(p, [m]);
    Assoc(Catalogue(registry), Listings(p, models), Listings(p, [m]));
  }

  lemma {:induction false} CatalogueSnoc(registry: Registry, p: string, models: seq<Model>)
    ensures Catalogue(registry + [(p, models)]) == Catalogue(registry) + Listings(p, models)
  {
    var more := registry + [(p, models)];
    if registry == [] {
      assert more == [(p, models)] && more[1..] == [];
    } else {
      CatalogueSnoc(registry[1..], p, models);
      assert more[1..] == registry[1..] + [(p, models)];
      Assoc(Listings(registry[0].0, registry[0].1), Catalogue(registry[1..]), Listings(p, models));
    }
  }
}
