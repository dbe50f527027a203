/** Merging of client-negotiated beta tokens into the outgoing anthropic-beta list. */
module AnthropicHeaders {
  import opened JsText

  const CONTEXT_1M := "context-1m-2025-08-07"

  /**
   * What the merge depends on beside the two lists: String.toLowerCase, the allow-list, the resolved
   * model if one was supplied, and whether a model supports the long-context beta.
   */
  datatype Policy = Policy(
    lower: string -> string,
    allow: seq<string>,
    model: Option<string>,
    supports1m: string -> bool)

  // ----- comma lists -----

  /** A token of a comma list: trimmed, not empty, without comma. */
  predicate IsToken(t: string) {
    t != "" && Trimmed(t) && ',' !in t
  }

  predicate AreTokens(ts: seq<string>) {
    forall t :: t in ts ==> IsToken(t)
  }

  function TrimmedNonEmpty(pieces: seq<string>): seq<string> {
    if pieces == [] then []
    else (if Trim(pieces[0]) == "" then [] else [Trim(pieces[0])]) + TrimmedNonEmpty(pieces[1..])
  }

  function Tokens(list: string): seq<string> {
    TrimmedNonEmpty(SplitOn(list, ','))
  }

  lemma {:induction false} TrimmedNonEmptyAreTokens(pieces: seq<string>)
    requires forall p :: p in pieces ==> ',' !in p
    ensures AreTokens(TrimmedNonEmpty(pieces))
  {
    if pieces != [] {
      TrimmedNonEmptyAreTokens(pieces[1..]);
      TrimIsTrimmed(pieces[0]);
    }
  }

  lemma TokensAreTokens(list: string)
    ensures AreTokens(Tokens(list))
  {
    SplitPieces(list, ',');
    TrimmedNonEmptyAreTokens(SplitOn(list, ','));
  }

  lemma {:induction false} TrimmedNonEmptyOfTokens(ts: seq<string>)
    requires AreTokens(ts)
    ensures TrimmedNonEmpty(ts) == ts
  {
    if ts != [] {
      assert IsToken(ts[0]);
      TrimOfTrimmed(ts[0]);
      TrimmedNonEmptyOfTokens(ts[1..]);
    }
  }

  /** Splitting undoes joining on every list of tokens, the empty one included. */
  lemma TokensOfJoin(ts: seq<string>)
    requires AreTokens(ts)
    ensures Tokens(JoinOn(ts, ',')) == ts
  {
    if ts == [] {
      assert SplitOn("", ',') == [""];
      assert TrimmedNonEmpty([""]) == [];
    } else {
      SplitOfJoin(ts, ',');
      TrimmedNonEmptyOfTokens(ts);
    }
  }

  // ----- the merge -----

  /** The long-context beta is not for a supplied model that lacks it. */
  predicate Permits(policy: Policy, lowered: string) {
    lowered == CONTEXT_1M ==>
      policy.model.None? || policy.model.value == "" || policy.supports1m(policy.model.value)
  }

  predicate Allowed(policy: Policy, lowered: string) {
    Permits(policy, lowered) && exists a :: a in policy.allow && policy.lower(a) == lowered
  }

  predicate Seen(policy: Policy, list: seq<string>, token: string) {
    exists t :: t in list && policy.lower(t) == policy.lower(token)
  }

  /** The list with the client's tokens appended that are allowed and new up to case. */
  function Appended(policy: Policy, list: seq<string>, client: seq<string>): seq<string>
    decreases |client|
  {
    if client == [] then list
    else if Allowed(policy, policy.lower(client[0])) && !Seen(policy, list, client[0])
    then Appended(policy, list + [client[0]], client[1..])
    else Appended(policy, list, client[1..])
  }

  function Merged(policy: Policy, base: string, client: Option<string>): string {
    JoinOn(MergedTokens(policy, base, client), ',')
  }

  function MergedTokens(policy: Policy, base: string, client: Option<string>): seq<string> {
    if client.None? || Trim(client.value) == "" then Tokens(base)
    else Appended(policy, Tokens(base), Tokens(client.value))
  }

  method MergeClientAnthropicBeta(policy: Policy, base: string, client: Option<string>) returns (merged: string)
    ensures merged == Merged(policy, base, client)
  {
    var baseList := Tokens(base);
    if client.None? || Trim(client.value) == "" {
      return JoinOn(baseList, ',');
    }
    var seen := set t | t in baseList :: policy.lower(t);
    var allowSet := AllowSet(policy);
    var tokens := Tokens(client.value);
    for i := 0 to |tokens|
      invariant seen == set t | t in baseList :: policy.lower(t)
      invariant Appended(policy, baseList, tokens[i..]) == Appended(policy, Tokens(base), tokens)
    {
      var token := tokens[i];
      assert tokens[i..][0] == token && tokens[i..][1..] == tokens[i + 1..];
      var lowered := policy.lower(token);
      if lowered in allowSet && lowered !in seen {
        baseList := baseList + [token];
        seen := seen + {lowered};
      }
    }
    return JoinOn(baseList, ',');
  }

  method AllowSet(policy: Policy) returns (allowed: set<string>)
    ensures forall l :: l in allowed <==> Allowed(policy, l)
  {
    allowed := {};
    for i := 0 to |policy.allow|
      invariant forall l :: l in allowed <==>
                            Permits(policy, l) && exists a :: a in policy.allow[..i] && policy.lower(a) == l
    {
      var l := policy.lower(policy.allow[i]);
      assert policy.allow[..i + 1] == policy.allow[..i] + [policy.allow[i]];
      if Permits(policy, l) {
        allowed := allowed + {l};
      }
    }
    assert policy.allow[..|policy.allow|] == policy.allow;
  }

  // ----- what the merge guarantees -----

  /**
   * The list stays as a prefix; what follows comes from the client, is allowed, and repeats no token
   * up to case; and every allowed client token is there in some case.
   */
  lemma {:induction false} AppendedIs(policy: Policy, list: seq<string>, client: seq<string>)
    ensures var r := Appended(policy, list, client);
            && list <= r
            && (forall i :: |list| <= i < |r| ==> r[i] in client && Allowed(policy, policy.lower(r[i])))
            && (forall i, j :: 0 <= i < j < |r| && |list| <= j ==> policy.lower(r[i]) != policy.lower(r[j]))
            && (forall t :: t in client && Allowed(policy, policy.lower(t)) ==> Seen(policy, r, t))
    decreases |client|
  {
    if client != [] {
      var token := client[0];
      assert client == [token] + client[1..];
      var adds := Allowed(policy, policy.lower(token)) && !Seen(policy, list, token);
      var next := if adds then list + [token] else list;
      AppendedIs(policy, next, client[1..]);
      var r := Appended(policy, list, client);
      assert r[..|next|] == next;
      assert forall t :: t in next ==> t in r;
      if adds {
        assert r[|list|] == token;
        forall i | 0 <= i < |list|
          ensures policy.lower(r[i]) != policy.lower(token)
        {
          assert r[i] == list[i] && list[i] in list;
        }
      }
    }
  }

  /** A list that already holds every allowed client token up to case is left alone. */
  lemma {:induction false} NothingNew(policy: Policy, list: seq<string>, client: seq<string>)
    requires forall t :: t in client && Allowed(policy, policy.lower(t)) ==> Seen(policy, list, t)
    ensures Appended(policy, list, client) == list
  {
    if client != [] {
      assert client == [client[0]] + client[1..];
      NothingNew(policy, list, client[1..]);
    }
  }

  /** The tokens of the merged header are the merged tokens. */
  lemma MergedReadsBack(policy: Policy, base: string, client: Option<string>)
    ensures Tokens(Merged(policy, base, client)) == MergedTokens(policy, base, client)
  {
    TokensAreTokens(base);
    if client.Some? {
      TokensAreTokens(client.value);
      AppendedIs(policy, Tokens(base), Tokens(client.value));
      var r := Appended(policy, Tokens(base), Tokens(client.value));
      forall t | t in r
        ensures IsToken(t)
      {
        var i :| 0 <= i < |r| && r[i] == t;
        if i < |Tokens(base)| {
          assert Tokens(base)[i] in Tokens(base);
        }
      }
      TokensOfJoin(r);
    }
    TokensOfJoin(Tokens(base));
  }

  /** The header a client sees merged: the base tokens first, then only allowed client tokens, none twice. */
  lemma MergeGuarantees(policy: Policy, base: string, client: Option<string>)
    ensures var b, r := Tokens(base), Tokens(Merged(policy, base, client));
            && b <= r
            && (forall i :: |b| <= i < |r| ==>
                  client.Some? && r[i] in Tokens(client.value) && Allowed(policy, policy.lower(r[i])))
            && (forall i, j :: 0 <= i < j < |r| && |b| <= j ==> policy.lower(r[i]) != policy.lower(r[j]))
  {
    MergedReadsBack(policy, base, client);
    if client.Some? {
      AppendedIs(policy, Tokens(base), Tokens(client.value));
    }
  }

  /** The long-context beta is never appended for a supplied model that does not support it. */
  lemma UnsupportedModelGets1mNever(policy: Policy, base: string, client: Option<string>, i: nat)
    requires policy.model.Some? && policy.model.value != "" && !policy.supports1m(policy.model.value)
    requires |Tokens(base)| <= i < |Tokens(Merged(policy, base, client))|
    ensures policy.lower(Tokens(Merged(policy, base, client))[i]) != CONTEXT_1M
  {
    MergeGuarantees(policy, base, client);
  }

  /** No allowed client token is dropped. */
  lemma AllowedTokensArrive(policy: Policy, base: string, client: string, token: string)
    requires token in Tokens(client) && Allowed(policy, policy.lower(token))
    ensures Seen(policy, Tokens(Merged(policy, base, Some(client))), token)
  {
    MergedReadsBack(policy, base, Some(client));
    AppendedIs(policy, Tokens(base), Tokens(client));
    if Trim(client) == "" {
      BlankHasNoTokens(client);
    }
  }

  lemma {:induction false} BlankHasNoTokens(list: string)
    requires Trim(list) == ""
    ensures Tokens(list) == []
  {
    BlankStart(list);
    SplitOfFree(list, ',');
    assert [list][1..] == [];
  }

  lemma {:induction false} BlankStart(s: string)
    requires Trim(s) == ""
    ensures forall c :: c in s ==> IsSpace(c)
  {
    if s != "" {
      if IsSpace(s[0]) {
        BlankStart(s[1..]);
        assert s == [s[0]] + s[1..];
      } else {
        FirstSurvives(s);
      }
    }
  }

  lemma {:induction false} FirstSurvives(s: string)
    requires s != "" && !IsSpace(s[0])
    ensures TrimEnd(s) != ""
  {
    if IsSpace(s[|s| - 1]) {
      FirstSurvives(s[..|s| - 1]);
    }
  }

  /** Merging the same client list again changes nothing. */
  lemma MergeIdempotent(policy: Policy, base: string, client: Option<string>)
    ensures Merged(policy, Merged(policy, base, client), client) == Merged(policy, base, client)
  {
    MergedReadsBack(policy, base, client);
    if client.Some? && Trim(client.value) != "" {
      AppendedIs(policy, Tokens(base), Tokens(client.value));
      NothingNew(policy, MergedTokens(policy, base, client), Tokens(client.value));
    }
  }

  // ----- the same without the policy's own words -----

  /** The tokens of a comma list are its pieces in order, trimmed, the blank ones left out. */
  lemma TokensAre(first: string, rest: string)
    requires ',' !in first
    ensures Tokens(first) == if Trim(first) == "" then [] else [Trim(first)]
    ensures Tokens(first + "," + rest) == Tokens(first) + Tokens(rest)
  {
    SplitOfFree(first, ',');
    SplitAtSeparator(first, rest, ',');
    assert first + [','] + rest == first + "," + rest;
    var head := if Trim(first) == "" then [] else [Trim(first)];
    assert [first][1..] == [] && TrimmedNonEmpty([]) == [] && head + [] == head;
    assert TrimmedNonEmpty([first]) == head;
    var pieces := [first] + SplitOn(rest, ',');
    assert pieces[1..] == SplitOn(rest, ',') && pieces[0] == first;
  }

  /** On the allow-list up to case, and not the long-context beta for a supplied model that does not support it. */
  predicate MayAppend(policy: Policy, token: string) {
    && (exists a :: a in policy.allow && policy.lower(a) == policy.lower(token))
    && !(policy.lower(token) == "context-1m-2025-08-07" && policy.model.Some? && policy.model.value != ""
         && !policy.supports1m(policy.model.value))
  }

  /** The merged header: the base tokens, then exactly the client's tokens that may be appended and are new. */
  lemma MergedAre(policy: Policy, base: string, client: Option<string>, token: string)
    ensures var b, r := Tokens(base), Tokens(Merged(policy, base, client));
            && b <= r
            && (forall i :: |b| <= i < |r| ==>
                  client.Some? && r[i] in Tokens(client.value) && MayAppend(policy, r[i]))
            && (client.None? ==> r == b)
            && (client.Some? && token in Tokens(client.value) && MayAppend(policy, token) ==>
                  exists t :: t in r && policy.lower(t) == policy.lower(token))
  {
    MergeGuarantees(policy, base, client);
    MergedReadsBack(policy, base, client);
    if client.Some? && token in Tokens(client.value) && MayAppend(policy, token) {
      AllowedTokensArrive(policy, base, client.value, token);
    }
  }

  /** The first client token that equals this one up to case. */
  predicate IsFirstLike(policy: Policy, client: seq<string>, token: string, a: int) {
    && 0 <= a < |client| && policy.lower(client[a]) == policy.lower(token)
    && forall b :: 0 <= b < a ==> policy.lower(client[b]) != policy.lower(token)
  }

  lemma {:induction false} AppendedInOrder(
      policy: Policy, list: seq<string>, client: seq<string>, i: nat, j: nat, a: int, b: int)
    requires |list| <= i <= j < |Appended(policy, list, client)|
    requires IsFirstLike(policy, client, Appended(policy, list, client)[i], a)
    requires IsFirstLike(policy, client, Appended(policy, list, client)[j], b)
    ensures Appended(policy, list, client)[i] == client[a] && (i < j ==> a < b)
    decreases |client|
  {
    var r, token := Appended(policy, list, client), client[0];
    var adds := Allowed(policy, policy.lower(token)) && !Seen(policy, list, token);
    var next := if adds then list + [token] else list;
    if i >= |next| {
      NotTheFirst(policy, list, client, i);
      NotTheFirst(policy, list, client, j);
      LikeBehind(policy, client, r[i], a);
      LikeBehind(policy, client, r[j], b);
      AppendedInOrder(policy, next, client[1..], i, j, a - 1, b - 1);
    } else {
      Grows(policy, next, client[1..]);
      assert r[i] == next[i] == token;
      if i < j {
        NotTheFirst(policy, list, client, j);
      }
    }
  }

  lemma Grows(policy: Policy, list: seq<string>, client: seq<string>)
    ensures list <= Appended(policy, list, client)
  {
    AppendedIs(policy, list, client);
  }

  lemma LikeBehind(policy: Policy, client: seq<string>, token: string, a: int)
    requires client != [] && policy.lower(client[0]) != policy.lower(token)
    requires IsFirstLike(policy, client, token, a)
    ensures IsFirstLike(policy, client[1..], token, a - 1)
  {
    assert forall b :: 0 <= b < |client| - 1 ==> client[1..][b] == client[b + 1];
  }

  /** A token appended later than the first client token differs from it. */
  lemma NotTheFirst(policy: Policy, list: seq<string>, client: seq<string>, i: nat)
    requires client != []
    requires var adds := Allowed(policy, policy.lower(client[0])) && !Seen(policy, list, client[0]);
             |list| + (if adds then 1 else 0) <= i < |Appended(policy, list, client)|
    ensures policy.lower(Appended(policy, list, client)[i]) != policy.lower(client[0])
  {
    var r, token := Appended(policy, list, client), client[0];
    AppendedIs(policy, list, client);
    if Allowed(policy, policy.lower(token)) && !Seen(policy, list, token) {
      AppendedIs(policy, list + [token], client[1..]);
      assert r[|list|] == (list + [token])[|list|];
    } else if Allowed(policy, policy.lower(token)) {
      var t :| t in list && policy.lower(t) == policy.lower(token);
      var k :| 0 <= k < |list| && list[k] == t;
      assert r[k] == t;
    }
  }

  /** What is appended stands in the client's order, each token as the client spelled it first. */
  lemma AppendedKeepsOrder(policy: Policy, base: string, client: string, i: nat, j: nat, a: int, b: int)
    requires |Tokens(base)| <= i <= j < |Tokens(Merged(policy, base, Some(client)))|
    requires IsFirstLike(policy, Tokens(client), Tokens(Merged(policy, base, Some(client)))[i], a)
    requires IsFirstLike(policy, Tokens(client), Tokens(Merged(policy, base, Some(client)))[j], b)
    ensures Tokens(Merged(policy, base, Some(client)))[i] == Tokens(client)[a] && (i < j ==> a < b)
  {
    MergedReadsBack(policy, base, Some(client));
    AppendedInOrder(policy, Tokens(base), Tokens(client), i, j, a, b);
  }
}
