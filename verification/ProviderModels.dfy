/** Looking a model up across all providers, and the effort suffix of Claude model ids. */
module ProviderModels {
  import opened JsText
  import opened OrderedMaps

  /** A registry entry: which capability fields it defines, and the rest of it. */
  datatype Model = Model(
    id: string,
    supportsXHighEffort: bool,
    supportsReasoning: bool,
    contextLength: bool,
    maxOutputTokens: bool,
    supportsVision: bool,
    toolCalling: bool,
    interleavedField: bool,
    unsupportedParams: bool,
    details: string)

  type Providers = seq<seq<Model>>

  function Weight(defined: bool, weight: nat): nat {
    if defined then weight else 0
  }

  function Richness(m: Model): nat {
    Weight(m.supportsXHighEffort, 10) + Weight(m.supportsReasoning, 5) + Weight(m.contextLength, 3)
    + Weight(m.maxOutputTokens, 2) + Weight(m.supportsVision, 2) + Weight(m.toolCalling, 2)
    + Weight(m.interleavedField, 1) + Weight(m.unsupportedParams, 1)
  }

  /** Array.prototype.find by id. */
  function Find(models: seq<Model>, id: string): Option<Model> {
    if models == [] then None else if models[0].id == id then Some(models[0]) else Find(models[1..], id)
  }

  /** Of every provider the first entry with the id. */
  function Candidates(providers: Providers, id: string): seq<Model> {
    if providers == [] then []
    else
      var found := Find(Last(providers), id);
      Candidates(Init(providers), id) + if found.Some? then [found.value] else []
  }

  function AllModels(providers: Providers): seq<Model> {
    if providers == [] then [] else AllModels(Init(providers)) + Last(providers)
  }

  function PrefixOf(text: string): Model -> bool {
    (m: Model) => StartsWith(text, m.id)
  }

  /** A longer id wins; of two equally long ones, the richer entry. */
  predicate Better(a: Model, b: Model) {
    |a.id| > |b.id| || (|a.id| == |b.id| && Richness(a) > Richness(b))
  }

  /** The first of the best. */
  function FirstBest(models: seq<Model>): (best: Option<Model>)
    ensures best.None? <==> models == []
  {
    if models == [] then None
    else
      var best := FirstBest(Init(models));
      if best.None? || Better(Last(models), best.value) then Some(Last(models)) else best
  }

  function Basename(modelId: string): string {
    var last := Last(SplitOn(modelId, '/'));
    if last == "" then modelId else last
  }

  function NearModel(providers: Providers, base: string): Option<Model> {
    if Candidates(providers, base) != [] then FirstBest(Candidates(providers, base))
    else FirstBest(Filter(AllModels(providers), PrefixOf(base)))
  }

  function GlobalModel(providers: Providers, modelId: string): Option<Model> {
    if Candidates(providers, modelId) != [] then FirstBest(Candidates(providers, modelId))
    else NearModel(providers, Basename(modelId))
  }

  // ----- the loops -----

  method CollectCandidates(providers: Providers, id: string) returns (candidates: seq<Model>)
    ensures candidates == Candidates(providers, id)
  {
    candidates := [];
    for i := 0 to |providers|
      invariant candidates == Candidates(providers[..i], id)
    {
      assert Init(providers[..i + 1]) == providers[..i];
      var found := Find(providers[i], id);
      if found.Some? {
        candidates := candidates + [found.value];
      }
    }
    assert providers[..|providers|] == providers;
  }

  method LongestPrefix(providers: Providers, base: string) returns (bestMatch: Option<Model>)
    ensures bestMatch == FirstBest(Filter(AllModels(providers), PrefixOf(base)))
    ensures bestMatch.Some? ==> IsFirstBestOf(Filter(AllModels(providers), PrefixOf(base)), bestMatch.value)
  {
    bestMatch := None;
    ghost var p := PrefixOf(base);
    for i := 0 to |providers|
      invariant bestMatch == FirstBest(Filter(AllModels(providers[..i]), p))
    {
      var models := providers[i];
      ghost var seen := AllModels(providers[..i]);
      assert seen + models[..0] == seen;
      for j := 0 to |models|
        invariant bestMatch == FirstBest(Filter(seen + models[..j], p))
      {
        var m := models[j];
        FilterOneMore(seen, models, j, p);
        if StartsWith(base, m.id) {
          if bestMatch.None? || |m.id| > |bestMatch.value.id|
             || (|m.id| == |bestMatch.value.id| && Richness(m) > Richness(bestMatch.value))
          {
            bestMatch := Some(m);
          }
        }
      }
      assert models[..|models|] == models;
      assert Init(providers[..i + 1]) == providers[..i];
    }
    assert providers[..|providers|] == providers;
    if bestMatch.Some? {
      FirstBestIsFirst(Filter(AllModels(providers), p));
    }
  }

  lemma FilterOneMore(seen: seq<Model>, models: seq<Model>, j: nat, p: Model -> bool)
    requires j < |models|
    ensures p(models[j]) ==>
              var now := Filter(seen + models[..j + 1], p);
              now != [] && Init(now) == Filter(seen + models[..j], p) && Last(now) == models[j]
    ensures !p(models[j]) ==> Filter(seen + models[..j + 1], p) == Filter(seen + models[..j], p)
  {
    var all := seen + models[..j + 1];
    assert all[..|all| - 1] == seen + models[..j] && all[|all| - 1] == models[j];
    FilterSnoc(all, |all| - 1, p);
    assert all[..|all|] == all;
  }

  method GetGlobalModel(providers: Providers, modelId: string) returns (model: Option<Model>)
    ensures model == GlobalModel(providers, modelId)
    ensures model.Some? ==> exists i, a :: FirstSeen(providers, Looked(providers, modelId), model.value, i, a)
  {
    if GlobalModel(providers, modelId).Some? {
      var i, a := FirstSeenWins(providers, modelId);
    }
    var candidates := CollectCandidates(providers, modelId);
    if |candidates| > 0 {
      CandidatesAre(providers, modelId);
      RichestFirst(candidates, modelId);
      return Some(SortBy(candidates, Poorer)[0]);
    }
    var pieces := SplitOn(modelId, '/');
    var base := if Last(pieces) != "" then Last(pieces) else modelId;
    candidates := CollectCandidates(providers, base);
    if |candidates| > 0 {
      CandidatesAre(providers, base);
      RichestFirst(candidates, base);
      return Some(SortBy(candidates, Poorer)[0]);
    }
    model := LongestPrefix(providers, base);
  }

  predicate Poorer(a: Model, b: Model) {
    Richness(b) > Richness(a)
  }

  /** Sorting by falling richness puts the first of the richest in front. */
  lemma {:induction false} RichestFirst(models: seq<Model>, id: string)
    requires models != []
    requires forall m :: m in models ==> m.id == id
    ensures SortBy(models, Poorer) != [] && SortBy(models, Poorer)[0] == FirstBest(models).value
    ensures IsFirstBestOf(models, SortBy(models, Poorer)[0])
  {
    if |models| > 1 {
      RichestFirst(models[1..], id);
      FirstBestCons(models);
      FirstBestIsIn(models[1..]);
    } else {
      assert models[1..] == [] && Init(models) == [];
    }
    FirstBestIsFirst(models);
  }

  lemma {:induction false} FirstBestIsIn(models: seq<Model>)
    requires models != []
    ensures FirstBest(models).value in models
    ensures forall m :: m in models ==> !Better(m, FirstBest(models).value)
  {
    assert models == Init(models) + [Last(models)];
    if |models| > 1 {
      FirstBestIsIn(Init(models));
    }
  }

  lemma {:induction false} FirstBestCons(models: seq<Model>)
    requires |models| > 1
    ensures FirstBest(models) ==
            if Better(FirstBest(models[1..]).value, models[0]) then FirstBest(models[1..]) else Some(models[0])
  {
    assert Last(models[1..]) == Last(models) && Init(models)[0] == models[0];
    assert Init(models[1..]) == Init(models)[1..];
    if |models| > 2 {
      FirstBestCons(Init(models));
    } else {
      assert Init(models[1..]) == [] && Init(models) == [models[0]] && Init(Init(models)) == [];
    }
  }

  /** Some provider's first entry with the id is this one. */
  predicate Offered(providers: Providers, id: string, m: Model) {
    exists i :: 0 <= i < |providers| && Find(providers[i], id) == Some(m)
  }

  lemma {:induction false} CandidatesAre(providers: Providers, id: string)
    ensures forall m :: m in Candidates(providers, id) <==> Offered(providers, id, m)
    ensures forall m :: m in Candidates(providers, id) ==> m.id == id
  {
    if providers != [] {
      CandidatesAre(Init(providers), id);
      FindIs(Last(providers), id);
      forall m
        ensures Offered(providers, id, m) <==> Offered(Init(providers), id, m) || Find(Last(providers), id) == Some(m)
      {
        assert Offered(Init(providers), id, m) ==> Offered(providers, id, m) by {
          if Offered(Init(providers), id, m) {
            var i :| 0 <= i < |Init(providers)| && Find(Init(providers)[i], id) == Some(m);
            assert Find(providers[i], id) == Some(m);
          }
        }
        if Offered(providers, id, m) && Find(Last(providers), id) != Some(m) {
          var i :| 0 <= i < |providers| && Find(providers[i], id) == Some(m);
          assert Find(Init(providers)[i], id) == Some(m);
        }
      }
    }
  }

  lemma {:induction false} FindIs(models: seq<Model>, id: string)
    ensures Find(models, id).Some? ==> Find(models, id).value in models && Find(models, id).value.id == id
    ensures Find(models, id).None? ==> forall m :: m in models ==> m.id != id
  {
    if models != [] {
      FindIs(models[1..], id);
      assert models == [models[0]] + models[1..];
    }
  }

  // ----- what a lookup finds -----

  predicate Listed(providers: Providers, m: Model) {
    exists i :: 0 <= i < |providers| && m in providers[i]
  }

  ghost predicate ListsId(providers: Providers, id: string) {
    exists m :: Listed(providers, m) && m.id == id
  }

  lemma {:induction false} AllModelsAre(providers: Providers)
    ensures forall m :: m in AllModels(providers) <==> Listed(providers, m)
  {
    if providers != [] {
      AllModelsAre(Init(providers));
      forall m
        ensures Listed(providers, m) <==> Listed(Init(providers), m) || m in Last(providers)
      {
        if Listed(Init(providers), m) {
          var i :| 0 <= i < |Init(providers)| && m in Init(providers)[i];
          assert m in providers[i];
        }
        if Listed(providers, m) && m !in Last(providers) {
          var i :| 0 <= i < |providers| && m in providers[i];
          assert m in Init(providers)[i];
        }
      }
    }
  }

  /** An id has candidates exactly when it is listed. */
  lemma CandidatesOfListed(providers: Providers, id: string)
    ensures Candidates(providers, id) != [] <==> ListsId(providers, id)
  {
    CandidatesAre(providers, id);
    if Candidates(providers, id) != [] {
      var m := Candidates(providers, id)[0];
      assert Offered(providers, id, m);
      var i :| 0 <= i < |providers| && Find(providers[i], id) == Some(m);
      FindIs(providers[i], id);
      assert Listed(providers, m);
    }
    if ListsId(providers, id) {
      var m :| Listed(providers, m) && m.id == id;
      var i :| 0 <= i < |providers| && m in providers[i];
      FindIs(providers[i], id);
      assert Offered(providers, id, Find(providers[i], id).value);
    }
  }

  lemma FromCandidates(providers: Providers, id: string)
    requires Candidates(providers, id) != []
    ensures var r := FirstBest(Candidates(providers, id)).value; r.id == id && Listed(providers, r)
    ensures forall m :: Offered(providers, id, m) ==>
              Richness(m) <= Richness(FirstBest(Candidates(providers, id)).value)
  {
    CandidatesAre(providers, id);
    FirstBestIsIn(Candidates(providers, id));
    var r := FirstBest(Candidates(providers, id)).value;
    var i :| 0 <= i < |providers| && Find(providers[i], id) == Some(r);
    FindIs(providers[i], id);
  }

  /** The longest listed id that a text starts with. */
  ghost predicate IsLongestPrefix(providers: Providers, base: string, r: Option<Model>) {
    && (r.Some? ==> Listed(providers, r.value) && StartsWith(base, r.value.id))
    && (forall m :: Listed(providers, m) && StartsWith(base, m.id) ==> r.Some? && |m.id| <= |r.value.id|)
  }

  lemma NearIsLongestPrefix(providers: Providers, base: string)
    ensures IsLongestPrefix(providers, base, NearModel(providers, base))
  {
    if Candidates(providers, base) != [] {
      FromCandidates(providers, base);
    } else {
      var near := Filter(AllModels(providers), PrefixOf(base));
      AllModelsAre(providers);
      FilterMembers(AllModels(providers), PrefixOf(base));
      if near != [] {
        FirstBestIsIn(near);
      }
    }
  }

  /**
   * A listed id finds itself; any other id finds the longest listed id that its basename starts with,
   * and nothing exactly when there is none.
   */
  lemma LookupFinds(providers: Providers, modelId: string)
    ensures var r := GlobalModel(providers, modelId);
            if ListsId(providers, modelId) then r.Some? && r.value.id == modelId && Listed(providers, r.value)
            else IsLongestPrefix(providers, Basename(modelId), r)
  {
    CandidatesOfListed(providers, modelId);
    if Candidates(providers, modelId) != [] {
      FromCandidates(providers, modelId);
    } else {
      NearIsLongestPrefix(providers, Basename(modelId));
    }
  }

  // ----- richness -----

  /** No provider lists an id twice. */
  predicate NoRepeats(providers: Providers) {
    forall k, i, j :: 0 <= k < |providers| && 0 <= i < j < |providers[k]| ==> providers[k][i].id != providers[k][j].id
  }

  /** Among the entries a provider lists first under their id, the one found is the richest with its id. */
  lemma LookupIsRichest(providers: Providers, modelId: string, i: nat)
    requires i < |providers|
    ensures var r := GlobalModel(providers, modelId);
            r.Some? && Find(providers[i], r.value.id).Some? ==>
              Richness(Find(providers[i], r.value.id).value) <= Richness(r.value)
  {
    var r := GlobalModel(providers, modelId);
    if r.Some? && Find(providers[i], r.value.id).Some? {
      var m := Find(providers[i], r.value.id).value;
      var base := Basename(modelId);
      assert Offered(providers, r.value.id, m);
      FindIs(providers[i], r.value.id);
      if Candidates(providers, modelId) != [] {
        FromCandidates(providers, modelId);
      } else if Candidates(providers, base) != [] {
        FromCandidates(providers, base);
      } else {
        AllModelsAre(providers);
        assert Listed(providers, m);
        FilterMembers(AllModels(providers), PrefixOf(base));
        FirstBestIsIn(Filter(AllModels(providers), PrefixOf(base)));
      }
    }
  }

  /** When no provider repeats an id, the entry found is the richest of all listed with its id. */
  lemma LookupIsRichestOfAll(providers: Providers, modelId: string, m: Model)
    requires NoRepeats(providers) && Listed(providers, m)
    requires GlobalModel(providers, modelId).Some? && GlobalModel(providers, modelId).value.id == m.id
    ensures Richness(m) <= Richness(GlobalModel(providers, modelId).value)
  {
    var i :| 0 <= i < |providers| && m in providers[i];
    var k :| 0 <= k < |providers[i]| && providers[i][k] == m;
    FindOnly(providers[i], k);
    LookupIsRichest(providers, modelId, i);
  }

  /** No listed entry with the id is richer. */
  ghost predicate RichestListed(providers: Providers, r: Model) {
    forall m :: Listed(providers, m) && m.id == r.id ==> Richness(m) <= Richness(r)
  }

  /** Every entry with the id has an entry at least as rich that its provider lists first under the id. */
  ghost predicate FirstsSuffice(providers: Providers, id: string) {
    forall m :: Listed(providers, m) && m.id == id ==>
      exists f :: Offered(providers, id, f) && Richness(m) <= Richness(f)
  }

  /**
   * The entry found is the richest of all with its id exactly when no repeat hides a richer one, or when
   * neither the id nor its basename is listed, since then all entries are looked at.
   */
  lemma RichestExactly(providers: Providers, modelId: string)
    requires GlobalModel(providers, modelId).Some?
    ensures var r := GlobalModel(providers, modelId).value;
            RichestListed(providers, r) <==>
            (FirstsSuffice(providers, r.id)
             || (!ListsId(providers, modelId) && !ListsId(providers, Basename(modelId))))
  {
    var r, base := GlobalModel(providers, modelId).value, Basename(modelId);
    CandidatesOfListed(providers, modelId);
    CandidatesOfListed(providers, base);
    if Candidates(providers, modelId) != [] {
      RichestCandidateExactly(providers, modelId);
    } else if Candidates(providers, base) != [] {
      RichestCandidateExactly(providers, base);
    } else {
      RichestOfPrefixes(providers, base);
    }
  }

  lemma RichestCandidateExactly(providers: Providers, id: string)
    requires Candidates(providers, id) != []
    ensures var r := FirstBest(Candidates(providers, id)).value;
            r.id == id && (RichestListed(providers, r) <==> FirstsSuffice(providers, id))
  {
    FromCandidates(providers, id);
    CandidatesAre(providers, id);
    FirstBestIsIn(Candidates(providers, id));
    assert Offered(providers, id, FirstBest(Candidates(providers, id)).value);
  }

  lemma RichestOfPrefixes(providers: Providers, base: string)
    requires Filter(AllModels(providers), PrefixOf(base)) != []
    ensures RichestListed(providers, FirstBest(Filter(AllModels(providers), PrefixOf(base))).value)
  {
    AllModelsAre(providers);
    FilterMembers(AllModels(providers), PrefixOf(base));
    FirstBestIsIn(Filter(AllModels(providers), PrefixOf(base)));
  }

  /** A provider that lists an id twice: the richer second entry is passed over. */
  lemma RepeatIsPassedOver(poor: Model, rich: Model)
    requires poor.id == rich.id && Richness(poor) < Richness(rich)
    ensures GlobalModel([[poor, rich]], poor.id) == Some(poor)
  {
    var providers := [[poor, rich]];
    assert Init(providers) == [] && Find(Last(providers), poor.id) == Some(poor);
    assert Candidates(providers, poor.id) == [poor];
    assert Init([poor]) == [] && Last([poor]) == poor;
  }

  /** The same when the id is only the basename of what was asked for. */
  lemma RepeatIsPassedOverByBasename(poor: Model, rich: Model)
    requires poor.id == rich.id && Richness(poor) < Richness(rich) && poor.id != "" && '/' !in poor.id
    ensures GlobalModel([[poor, rich]], "v/" + poor.id) == Some(poor)
  {
    var providers, asked := [[poor, rich]], "v/" + poor.id;
    assert asked == "v" + ['/'] + poor.id;
    SplitAtSeparator("v", poor.id, '/');
    SplitOfFree(poor.id, '/');
    assert Basename(asked) == poor.id && |asked| > |poor.id|;
    FindIs([poor, rich], asked);
    assert Init(providers) == [] && Find(Last(providers), asked) == None;
    assert Candidates(providers, asked) == [];
    RepeatIsPassedOver(poor, rich);
    assert Find(Last(providers), poor.id) == Some(poor) && Candidates(providers, poor.id) == [poor];
  }

  lemma {:induction false} FindOnly(models: seq<Model>, k: nat)
    requires k < |models|
    requires forall i, j :: 0 <= i < j < |models| ==> models[i].id != models[j].id
    ensures Find(models, models[k].id) == Some(models[k])
  {
    if k > 0 {
      FindOnly(models[1..], k - 1);
    }
  }

  // ----- first seen -----

  /** The entry at a place is at least as good as every other, and better than every earlier one. */
  predicate IsFirstBest(models: seq<Model>, i: int) {
    && 0 <= i < |models|
    && (forall j :: 0 <= j < i ==> Better(models[i], models[j]))
    && (forall j :: 0 <= j < |models| ==> !Better(models[j], models[i]))
  }

  ghost predicate IsFirstBestOf(models: seq<Model>, m: Model) {
    exists i :: IsFirstBest(models, i) && models[i] == m
  }

  /** The fold of the loop finds the first of the best. */
  lemma {:induction false} FirstBestIsFirst(models: seq<Model>)
    requires models != []
    ensures IsFirstBestOf(models, FirstBest(models).value)
  {
    var front, last := Init(models), |models| - 1;
    if front == [] {
      assert IsFirstBest(models, last);
    } else {
      FirstBestIsFirst(front);
      var k :| IsFirstBest(front, k) && front[k] == FirstBest(front).value;
      assert forall j :: 0 <= j < last ==> front[j] == models[j];
      assert IsFirstBest(models, if Better(models[last], front[k]) then last else k);
    }
  }

  /** The lists that a lookup takes from the providers, one after another. */
  function Gather(providers: Providers, take: seq<Model> -> seq<Model>): seq<Model> {
    if providers == [] then [] else Gather(Init(providers), take) + take(Last(providers))
  }

  /** What a lookup looks at in one provider, stage by stage. */
  function Looked(providers: Providers, modelId: string): seq<Model> -> seq<Model> {
    var base := Basename(modelId);
    if Candidates(providers, modelId) != [] then FirstWith(modelId)
    else if Candidates(providers, base) != [] then FirstWith(base)
    else Prefixed(base)
  }

  function FirstWith(id: string): seq<Model> -> seq<Model> {
    (models: seq<Model>) => if Find(models, id).Some? then [Find(models, id).value] else []
  }

  function Prefixed(base: string): seq<Model> -> seq<Model> {
    (models: seq<Model>) => Filter(models, PrefixOf(base))
  }

  lemma {:induction false} CandidatesGathered(providers: Providers, id: string)
    ensures Candidates(providers, id) == Gather(providers, FirstWith(id))
  {
    if providers != [] {
      CandidatesGathered(Init(providers), id);
    }
  }

  lemma {:induction false} PrefixesGathered(providers: Providers, base: string)
    ensures Filter(AllModels(providers), PrefixOf(base)) == Gather(providers, Prefixed(base))
  {
    if providers != [] {
      PrefixesGathered(Init(providers), base);
      FilterAppend(AllModels(Init(providers)), Last(providers), PrefixOf(base));
    }
  }

  lemma {:induction false} GatherHolds(providers: Providers, take: seq<Model> -> seq<Model>)
    ensures forall i, m :: 0 <= i < |providers| && m in take(providers[i]) ==> m in Gather(providers, take)
  {
    if providers != [] {
      GatherHolds(Init(providers), take);
      assert forall i :: 0 <= i < |providers| - 1 ==> providers[i] == Init(providers)[i];
    }
  }

  /** Where a gathered entry comes from: all that precedes it there was gathered before it. */
  lemma {:induction false} Locate(providers: Providers, take: seq<Model> -> seq<Model>, k: nat)
    returns (i: nat, a: nat)
    requires k < |Gather(providers, take)|
    ensures i < |providers| && a < |take(providers[i])| && take(providers[i])[a] == Gather(providers, take)[k]
    ensures forall b :: 0 <= b < a ==> take(providers[i])[b] in Gather(providers, take)[..k]
    ensures forall j, m :: 0 <= j < i && m in take(providers[j]) ==> m in Gather(providers, take)[..k]
  {
    var front, last := Gather(Init(providers), take), take(Last(providers));
    var all := Gather(providers, take);
    if k < |front| {
      i, a := Locate(Init(providers), take, k);
      assert all[..k] == front[..k];
      assert forall j :: 0 <= j <= i ==> Init(providers)[j] == providers[j];
    } else {
      i, a := |providers| - 1, k - |front|;
      GatherHolds(Init(providers), take);
      assert all[..k] == front + last[..a];
      assert forall b :: 0 <= b < a ==> last[..a][b] == last[b];
      assert forall j :: 0 <= j < i ==> Init(providers)[j] == providers[j];
    }
  }

  /** The entry stands first among its equals: nothing looked at is better, and nothing before it as good. */
  ghost predicate FirstSeen(providers: Providers, take: seq<Model> -> seq<Model>, r: Model, i: nat, a: nat) {
    && i < |providers| && a < |take(providers[i])| && take(providers[i])[a] == r
    && (forall b :: 0 <= b < a ==> Better(r, take(providers[i])[b]))
    && (forall j, m :: 0 <= j < i && m in take(providers[j]) ==> Better(r, m))
    && (forall j, m :: 0 <= j < |providers| && m in take(providers[j]) ==> !Better(m, r))
  }

  lemma FirstSeenOfGathered(providers: Providers, take: seq<Model> -> seq<Model>) returns (i: nat, a: nat)
    requires Gather(providers, take) != []
    ensures FirstSeen(providers, take, FirstBest(Gather(providers, take)).value, i, a)
  {
    var all := Gather(providers, take);
    FirstBestIsFirst(all);
    var k :| IsFirstBest(all, k) && all[k] == FirstBest(all).value;
    i, a := Locate(providers, take, k);
    GatherHolds(providers, take);
    forall m | m in all[..k]
      ensures Better(all[k], m)
    {
      var j :| 0 <= j < k && all[j] == m;
    }
    forall m | m in all
      ensures !Better(m, all[k])
    {
      var j :| 0 <= j < |all| && all[j] == m;
    }
  }

  /** On equally long ids and equal richness the entry of the earliest provider wins, and there the earliest. */
  lemma FirstSeenWins(providers: Providers, modelId: string) returns (i: nat, a: nat)
    requires GlobalModel(providers, modelId).Some?
    ensures FirstSeen(providers, Looked(providers, modelId), GlobalModel(providers, modelId).value, i, a)
  {
    CandidatesGathered(providers, modelId);
    CandidatesGathered(providers, Basename(modelId));
    PrefixesGathered(providers, Basename(modelId));
    i, a := FirstSeenOfGathered(providers, Looked(providers, modelId));
  }

  // ----- the order of the providers -----

  predicate EquallyGood(r: Option<Model>, s: Option<Model>) {
    (r.Some? <==> s.Some?)
    && (r.Some? ==> |r.value.id| == |s.value.id| && Richness(r.value) == Richness(s.value))
  }

  lemma SameBest(xs: seq<Model>, ys: seq<Model>)
    requires forall m :: m in xs <==> m in ys
    ensures EquallyGood(FirstBest(xs), FirstBest(ys))
  {
    assert xs != [] ==> xs[0] in ys;
    assert ys != [] ==> ys[0] in xs;
    if xs != [] {
      FirstBestIsIn(xs);
      FirstBestIsIn(ys);
      assert !Better(FirstBest(xs).value, FirstBest(ys).value);
      assert !Better(FirstBest(ys).value, FirstBest(xs).value);
    }
  }

  lemma SameListing(xs: Providers, ys: Providers)
    requires multiset(xs) == multiset(ys)
    ensures forall id, m :: Offered(xs, id, m) ==> Offered(ys, id, m)
    ensures forall m :: Listed(xs, m) ==> Listed(ys, m)
  {
    forall i | 0 <= i < |xs|
      ensures exists j :: 0 <= j < |ys| && ys[j] == xs[i]
    {
      assert xs[i] in multiset(ys);
    }
    forall id, m | Offered(xs, id, m)
      ensures Offered(ys, id, m)
    {
      var i :| 0 <= i < |xs| && Find(xs[i], id) == Some(m);
      var j :| 0 <= j < |ys| && ys[j] == xs[i];
      assert Find(ys[j], id) == Some(m);
    }
    forall m | Listed(xs, m)
      ensures Listed(ys, m)
    {
      var i :| 0 <= i < |xs| && m in xs[i];
      var j :| 0 <= j < |ys| && ys[j] == xs[i];
      assert m in ys[j];
    }
  }

  lemma SameCandidates(xs: Providers, ys: Providers, id: string)
    requires multiset(xs) == multiset(ys)
    ensures forall m :: m in Candidates(xs, id) <==> m in Candidates(ys, id)
    ensures Candidates(xs, id) == [] <==> Candidates(ys, id) == []
  {
    SameListing(xs, ys);
    SameListing(ys, xs);
    CandidatesAre(xs, id);
    CandidatesAre(ys, id);
    assert Candidates(xs, id) != [] ==> Candidates(xs, id)[0] in Candidates(ys, id);
    assert Candidates(ys, id) != [] ==> Candidates(ys, id)[0] in Candidates(xs, id);
  }

  lemma OrderKeepsQuality(xs: Providers, ys: Providers, modelId: string)
    requires multiset(xs) == multiset(ys)
    ensures EquallyGood(GlobalModel(xs, modelId), GlobalModel(ys, modelId))
  {
    var base := Basename(modelId);
    SameCandidates(xs, ys, modelId);
    SameCandidates(xs, ys, base);
    if Candidates(xs, modelId) != [] {
      SameBest(Candidates(xs, modelId), Candidates(ys, modelId));
    } else if Candidates(xs, base) != [] {
      SameBest(Candidates(xs, base), Candidates(ys, base));
    } else {
      SameNear(xs, ys, base);
    }
  }

  lemma SameNear(xs: Providers, ys: Providers, base: string)
    requires multiset(xs) == multiset(ys)
    ensures EquallyGood(FirstBest(Filter(AllModels(xs), PrefixOf(base))),
                        FirstBest(Filter(AllModels(ys), PrefixOf(base))))
  {
    SameListing(xs, ys);
    SameListing(ys, xs);
    AllModelsAre(xs);
    AllModelsAre(ys);
    FilterMembers(AllModels(xs), PrefixOf(base));
    FilterMembers(AllModels(ys), PrefixOf(base));
    SameBest(Filter(AllModels(xs), PrefixOf(base)), Filter(AllModels(ys), PrefixOf(base)));
  }

  /** No other listed entry has both the id and the richness of this one. */
  ghost predicate NoTie(providers: Providers, r: Model) {
    forall m :: Listed(providers, m) && m.id == r.id && Richness(m) == Richness(r) ==> m == r
  }

  /**
   * The same providers in any order: what is found has the same id and the same richness, and without
   * a full tie it is the same entry.
   */
  lemma LookupIgnoresOrder(xs: Providers, ys: Providers, modelId: string)
    requires multiset(xs) == multiset(ys)
    ensures var r, s := GlobalModel(xs, modelId), GlobalModel(ys, modelId);
            && EquallyGood(r, s)
            && (r.Some? ==> r.value.id == s.value.id)
            && (r.Some? && NoTie(xs, r.value) ==> r == s)
  {
    OrderKeepsQuality(xs, ys, modelId);
    LookupFinds(xs, modelId);
    LookupFinds(ys, modelId);
    SameListing(xs, ys);
    SameListing(ys, xs);
  }

  // ----- one provider's model -----

  function Lists(table: Entries<seq<Model>>): Providers {
    seq(|table|, i requires 0 <= i < |table| => table[i].1)
  }

  function ProviderModel(table: Entries<seq<Model>>, aliasOrId: string, modelId: string): Option<Model> {
    var models := Get(table, aliasOrId);
    var own := if models.Some? then Find(models.value, modelId) else None;
    if own.Some? then own else GlobalModel(Lists(table), modelId)
  }

  /** A provider's own entry comes first; a listed id is never answered with another id. */
  lemma ProviderLookupFinds(table: Entries<seq<Model>>, aliasOrId: string, modelId: string)
    ensures var r := ProviderModel(table, aliasOrId, modelId);
            && (r.Some? ==> Listed(Lists(table), r.value))
            && (ListsId(Lists(table), modelId) ==> r.Some? && r.value.id == modelId)
            && (Get(table, aliasOrId).Some? && (exists m :: m in Get(table, aliasOrId).value && m.id == modelId) ==>
                  r.Some? && r.value in Get(table, aliasOrId).value)
  {
    LookupFinds(Lists(table), modelId);
    GetHas(table, aliasOrId);
    if Get(table, aliasOrId).Some? {
      var models := Get(table, aliasOrId).value;
      FindIs(models, modelId);
      var i :| 0 <= i < |table| && table[i] == (aliasOrId, models);
      assert Lists(table)[i] == models;
    }
  }

  // ----- effort suffixes -----

  const EFFORT_SUFFIXES: seq<string> := ["xhigh", "max", "high", "medium", "low"]

  datatype Split = Split(baseModel: string, effort: Option<string>)

  function LowerChar(c: char): char {
    if 'A' <= c <= 'Z' then c - 'A' + 'a' else c
  }

  /** String.prototype.toLowerCase on the letters the suffixes are made of. */
  function Lower(s: string): (r: string)
    ensures |r| == |s|
  {
    seq(|s|, i requires 0 <= i < |s| => LowerChar(s[i]))
  }

  function SplitAmong(id: string, levels: seq<string>): Split {
    if levels == [] then Split(id, None)
    else if EndsWith(Lower(id), "-" + levels[0]) then
      Split(id[..|id| - (|levels[0]| + 1)], Some(levels[0]))
    else SplitAmong(id, levels[1..])
  }

  method SplitEffortSuffix(id: string) returns (split: Split)
    ensures split == SplitAmong(id, EFFORT_SUFFIXES)
  {
    var lower := Lower(id);
    for i := 0 to |EFFORT_SUFFIXES|
      invariant SplitAmong(id, EFFORT_SUFFIXES) == SplitAmong(id, EFFORT_SUFFIXES[i..])
    {
      var level := EFFORT_SUFFIXES[i];
      if EndsWith(lower, "-" + level) {
        return Split(id[..|id| - (|level| + 1)], Some(level));
      }
      assert EFFORT_SUFFIXES[i..][1..] == EFFORT_SUFFIXES[i + 1..];
    }
    return Split(id, None);
  }

  /** The id is the base followed by a dash and the level, in any letter case. */
  predicate IsSuffixed(id: string, base: string, level: string) {
    |base| <= |id| && id[..|base|] == base && Lower(id[|base|..]) == "-" + level
  }

  predicate DashFree(levels: seq<string>) {
    forall l :: l in levels ==> '-' !in l
  }

  lemma SuffixedEnds(id: string, level: string)
    ensures EndsWith(Lower(id), "-" + level) ==>
              |level| + 1 <= |id| && IsSuffixed(id, id[..|id| - (|level| + 1)], level)
    ensures forall base :: IsSuffixed(id, base, level) ==>
              EndsWith(Lower(id), "-" + level) && base == id[..|id| - (|level| + 1)]
  {
    if |level| + 1 <= |id| {
      var n := |id| - (|level| + 1);
      assert Lower(id[n..]) == Lower(id)[n..];
    }
    forall base | IsSuffixed(id, base, level)
      ensures EndsWith(Lower(id), "-" + level) && base == id[..|id| - (|level| + 1)]
    {
      assert |Lower(id[|base|..])| == |level| + 1;
      assert Lower(id[|base|..]) == Lower(id)[|base|..];
    }
  }

  lemma LongerEndHasDash(s: string, a: string, b: string)
    requires EndsWith(s, "-" + a) && EndsWith(s, "-" + b)
    ensures |a| < |b| ==> '-' in b
  {
    var x, y := "-" + a, "-" + b;
    assert s[|s| - |x|..] == x && s[|s| - |y|..] == y;
    if |a| < |b| {
      assert y[|y| - |x|] == s[|s| - |x|] == x[0] == '-';
      assert y[|y| - |x|] == b[|b| - |x|];
    }
  }

  /** The last dash decides: a text ends in at most one dash-free level. */
  lemma OneLevel(s: string, a: string, b: string)
    requires '-' !in a && '-' !in b
    requires EndsWith(s, "-" + a) && EndsWith(s, "-" + b)
    ensures a == b
  {
    LongerEndHasDash(s, a, b);
    LongerEndHasDash(s, b, a);
    var x, y := "-" + a, "-" + b;
    assert x == s[|s| - |x|..] == y;
    assert a == x[1..] && b == y[1..];
  }

  /** Splitting recovers base and level from exactly the ids made of them, whatever the order of the levels. */
  lemma {:induction false} SplitExactly(id: string, levels: seq<string>, base: string, level: string)
    requires DashFree(levels)
    ensures SplitAmong(id, levels) == Split(base, Some(level)) <==> level in levels && IsSuffixed(id, base, level)
    ensures SplitAmong(id, levels).effort.None? ==> SplitAmong(id, levels).baseModel == id
  {
    SuffixedEnds(id, level);
    if levels != [] {
      SplitExactly(id, levels[1..], base, level);
      SuffixedEnds(id, levels[0]);
      assert levels == [levels[0]] + levels[1..];
      if EndsWith(Lower(id), "-" + levels[0]) && EndsWith(Lower(id), "-" + level) && level in levels {
        OneLevel(Lower(id), levels[0], level);
      }
    }
  }

  lemma EffortsAreDashFree()
    ensures DashFree(EFFORT_SUFFIXES)
  {
  }

  /** A level put behind any base, dash or not, is split off again. */
  lemma EffortRoundTrip(base: string, level: string)
    requires level in EFFORT_SUFFIXES
    ensures SplitAmong(base + "-" + level, EFFORT_SUFFIXES) == Split(base, Some(level))
  {
    var id := base + "-" + level;
    EffortsAreDashFree();
    assert id[|base|..] == "-" + level;
    LevelsAreLower(level);
    assert Lower("-" + level) == "-" + level;
    SplitExactly(id, EFFORT_SUFFIXES, base, level);
  }

  lemma LevelsAreLower(level: string)
    requires level in EFFORT_SUFFIXES
    ensures Lower("-" + level) == "-" + level
  {
  }

  /** The score of an entry, field by field: whatever else it defines, a field adds its own weight. */
  lemma RichnessByField(m: Model)
    ensures Richness(m.(supportsXHighEffort := true)) == Richness(m.(supportsXHighEffort := false)) + 10
    ensures Richness(m.(supportsReasoning := true)) == Richness(m.(supportsReasoning := false)) + 5
    ensures Richness(m.(contextLength := true)) == Richness(m.(contextLength := false)) + 3
    ensures Richness(m.(maxOutputTokens := true)) == Richness(m.(maxOutputTokens := false)) + 2
    ensures Richness(m.(supportsVision := true)) == Richness(m.(supportsVision := false)) + 2
    ensures Richness(m.(toolCalling := true)) == Richness(m.(toolCalling := false)) + 2
    ensures Richness(m.(interleavedField := true)) == Richness(m.(interleavedField := false)) + 1
    ensures Richness(m.(unsupportedParams := true)) == Richness(m.(unsupportedParams := false)) + 1
    ensures Richness(Model(m.id, false, false, false, false, false, false, false, false, m.details)) == 0
  {
    FirstWeights(m);
    MiddleWeights(m);
    LastWeights(m);
  }

  lemma FirstWeights(m: Model)
    ensures Richness(m.(supportsXHighEffort := true)) == Richness(m.(supportsXHighEffort := false)) + 10
    ensures Richness(m.(supportsReasoning := true)) == Richness(m.(supportsReasoning := false)) + 5
  {
  }

  lemma MiddleWeights(m: Model)
    ensures Richness(m.(contextLength := true)) == Richness(m.(contextLength := false)) + 3
    ensures Richness(m.(maxOutputTokens := true)) == Richness(m.(maxOutputTokens := false)) + 2
    ensures Richness(m.(supportsVision := true)) == Richness(m.(supportsVision := false)) + 2
  {
  }

  lemma LastWeights(m: Model)
    ensures Richness(m.(toolCalling := true)) == Richness(m.(toolCalling := false)) + 2
    ensures Richness(m.(interleavedField := true)) == Richness(m.(interleavedField := false)) + 1
    ensures Richness(m.(unsupportedParams := true)) == Richness(m.(unsupportedParams := false)) + 1
  {
  }

  /** Of two providers with an entry for the id, the earlier one's is kept unless the later one's weighs more. */
  lemma RicherOfTwo(a: Model, b: Model)
    requires a.id == b.id
    ensures GlobalModel([[a], [b]], a.id) == Some(if Richness(b) > Richness(a) then b else a)
  {
    var providers: Providers := [[a], [b]];
    assert Init(providers) == [[a]] && Init([[a]]) == [];
    assert Candidates([[a]], a.id) == [a] && Candidates(providers, a.id) == [a, b];
    BestOfTwo(a, b);
  }

  lemma BestOfTwo(a: Model, b: Model)
    ensures FirstBest([a, b]) == Some(if Better(b, a) then b else a)
  {
    assert Init([a]) == [] && FirstBest([a]) == Some(a);
    assert Init([a, b]) == [a] && Last([a, b]) == b;
  }

  /** An entry that defines xhigh effort beats one that defines the unsupported parameters alone. */
  lemma XHighEffortWins(id: string, details: string)
    ensures var xhigh := Model(id, true, false, false, false, false, false, false, false, details);
            var params := Model(id, false, false, false, false, false, false, false, true, details);
            GlobalModel([[params], [xhigh]], id) == Some(xhigh) && GlobalModel([[xhigh], [params]], id) == Some(xhigh)
  {
    var xhigh := Model(id, true, false, false, false, false, false, false, false, details);
    var params := Model(id, false, false, false, false, false, false, false, true, details);
    RicherOfTwo(xhigh, params);
    RicherOfTwo(params, xhigh);
  }

  /** What follows the last slash, and the whole id when nothing does. */
  lemma BasenameIs(front: string, last: string)
    requires '/' !in last
    ensures Basename(last) == last
    ensures Basename(front + "/" + last) == if last == "" then front + "/" else last
  {
    SplitOfFree(last, '/');
    var text := front + "/";
    SplitResume(text, last, '/');
    EndsInSlash(front);
    assert Last(SplitOn(text, '/')) + last == last;
    assert text + "" == text;
  }

  lemma {:induction false} EndsInSlash(front: string)
    ensures Last(SplitOn(front + "/", '/')) == ""
  {
    if front == "" {
      assert front + "/" == "/" && "/"[1..] == "";
    } else {
      EndsInSlash(front[1..]);
      assert (front + "/")[1..] == front[1..] + "/";
      SplitOfSlash(front[1..]);
    }
  }

  lemma {:induction false} SplitOfSlash(front: string)
    ensures |SplitOn(front + "/", '/')| > 1
  {
    if front == "" {
      assert front + "/" == "/" && "/"[1..] == "";
    } else {
      SplitOfSlash(front[1..]);
      assert (front + "/")[1..] == front[1..] + "/";
    }
  }

  lemma {:induction false} FindIsFirst(models: seq<Model>, id: string, i: nat)
    requires i < |models| && models[i].id == id && forall j :: 0 <= j < i ==> models[j].id != id
    ensures Find(models, id) == Some(models[i])
  {
    if i > 0 {
      FindIsFirst(models[1..], id, i - 1);
    }
  }

  /** A provider's first entry with the id answers; without one the search of all providers does. */
  lemma OwnEntryAnswers(table: Entries<seq<Model>>, aliasOrId: string, modelId: string, i: nat)
    ensures var own := Get(table, aliasOrId);
            && (own.Some? && i < |own.value| && own.value[i].id == modelId
                && (forall j :: 0 <= j < i ==> own.value[j].id != modelId) ==>
                ProviderModel(table, aliasOrId, modelId) == Some(own.value[i]))
            && (own.None? || (forall m :: m in own.value ==> m.id != modelId) ==>
                ProviderModel(table, aliasOrId, modelId) == GlobalModel(Lists(table), modelId))
  {
    var own := Get(table, aliasOrId);
    if own.Some? {
      FindIs(own.value, modelId);
      if i < |own.value| && own.value[i].id == modelId && forall j :: 0 <= j < i ==> own.value[j].id != modelId {
        FindIsFirst(own.value, modelId, i);
      }
    }
  }

  /** A letter in either case. */
  predicate SameLetter(c: char, lower: char) {
    c == lower || ('A' <= c <= 'Z' && c as int + 32 == lower as int)
  }

  lemma LowerCharIs(c: char, lower: char)
    requires !('A' <= lower <= 'Z')
    ensures LowerChar(c) == lower <==> SameLetter(c, lower)
  {
  }

  lemma LowerIs(s: string, t: string)
    requires forall c :: c in t ==> !('A' <= c <= 'Z')
    ensures Lower(s) == t <==> |s| == |t| && forall i :: 0 <= i < |s| ==> SameLetter(s[i], t[i])
  {
    if |s| == |t| {
      forall i | 0 <= i < |s|
        ensures Lower(s)[i] == t[i] <==> SameLetter(s[i], t[i])
      {
        assert t[i] in t;
        LowerCharIs(s[i], t[i]);
      }
    }
  }

  /** Base and level are split off exactly when the id is the base, a dash and one of the five levels in any case. */
  lemma EffortExactly(id: string, base: string, level: string)
    ensures SplitAmong(id, EFFORT_SUFFIXES) == Split(base, Some(level)) <==>
            (&& level in ["xhigh", "max", "high", "medium", "low"]
             && |id| == |base| + 1 + |level| && base <= id && id[|base|] == '-'
             && forall i :: 0 <= i < |level| ==> SameLetter(id[|base| + 1 + i], level[i]))
  {
    EffortsAreDashFree();
    SplitExactly(id, EFFORT_SUFFIXES, base, level);
    if level in EFFORT_SUFFIXES {
      LevelsHaveNoCapital(level);
      SuffixedIs(id, base, level);
    }
  }

  lemma LevelsHaveNoCapital(level: string)
    requires level in EFFORT_SUFFIXES
    ensures forall c :: c in level ==> !('A' <= c <= 'Z')
  {
  }

  lemma SuffixedIs(id: string, base: string, level: string)
    requires forall c :: c in level ==> !('A' <= c <= 'Z')
    ensures IsSuffixed(id, base, level) <==>
            (&& |id| == |base| + 1 + |level| && base <= id && id[|base|] == '-'
             && forall i :: 0 <= i < |level| ==> SameLetter(id[|base| + 1 + i], level[i]))
  {
    if base < id {
      DashAndLevel(id[|base|..], level);
      var rest := id[|base|..][1..];
      assert forall i :: 0 <= i < |rest| ==> rest[i] == id[|base| + 1 + i];
    } else {
      assert Lower("") == "";
    }
  }

  lemma DashAndLevel(tail: string, level: string)
    requires tail != "" && forall c :: c in level ==> !('A' <= c <= 'Z')
    ensures Lower(tail) == "-" + level <==>
            (&& |tail| == 1 + |level| && tail[0] == '-'
             && forall i :: 0 <= i < |level| ==> SameLetter(tail[1..][i], level[i]))
  {
    var rest := tail[1..];
    LowerIs(rest, level);
    assert Lower(tail) == [LowerChar(tail[0])] + Lower(rest);
    assert ("-" + level)[0] == '-' && ("-" + level)[1..] == level;
    assert Lower(tail)[1..] == Lower(rest);
    LowerCharIs(tail[0], '-');
  }
}
