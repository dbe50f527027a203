/** The identity a Codex turn shows upstream: how its ids are derived and how they reach every carrier. */
module CodexIdentity {
  import opened JsText
  import opened OrderedMaps
  import opened Json

  const INSTALLATION_SALT := "omniroute-codex-installation"
  const SESSION_SEED_PREFIX := "omniroute:codex-session-id:v1:"
  const THREAD_SEED_PREFIX := "omniroute:codex-thread-id:v1:"

  /** A SHA-256 digest. */
  type Digest = d: seq<bv8> | |d| == 32 witness seq(32, _ => 0)

  type Hash = string -> Digest

  // ----- the two id builders -----

  function HexDigit(n: bv8): char {
    if n == 0 then '0' else if n == 1 then '1' else if n == 2 then '2' else if n == 3 then '3'
    else if n == 4 then '4' else if n == 5 then '5' else if n == 6 then '6' else if n == 7 then '7'
    else if n == 8 then '8' else if n == 9 then '9' else if n == 10 then 'a' else if n == 11 then 'b'
    else if n == 12 then 'c' else if n == 13 then 'd' else if n == 14 then 'e' else 'f'
  }

  function Nibble(bytes: seq<bv8>, i: nat): bv8
    requires i < 2 * |bytes|
  {
    if i % 2 == 0 then bytes[i / 2] >> 4 else bytes[i / 2] & 15
  }

  function Hex(bytes: seq<bv8>): (s: string)
    ensures |s| == 2 * |bytes|
  {
    seq(2 * |bytes|, i requires 0 <= i < 2 * |bytes| => HexDigit(Nibble(bytes, i)))
  }

  function StableUuid(digest: Digest): string {
    var raw := digest[..16];
    var versioned := raw[6 := (raw[6] & 0x0f) | 0x40];
    var bytes := versioned[8 := (versioned[8] & 0x3f) | 0x80];
    Hex(bytes[0..4]) + "-" + Hex(bytes[4..6]) + "-" + Hex(bytes[6..8]) + "-"
    + Hex(bytes[8..10]) + "-" + Hex(bytes[10..16])
  }

  function LegacyUuid(digest: Digest): string {
    var hash := Hex(digest);
    hash[0..8] + "-" + hash[8..12] + "-4" + hash[13..16] + "-a" + hash[17..20] + "-" + hash[20..32]
  }

  predicate IsHexDigit(c: char) {
    '0' <= c <= '9' || 'a' <= c <= 'f' || 'A' <= c <= 'F'
  }

  /** What the pattern accepts at a position. */
  predicate AcceptsAt(i: nat, c: char) {
    if i == 8 || i == 13 || i == 18 || i == 23 then c == '-'
    else if i == 14 then '1' <= c <= '5'
    else if i == 19 then c == '8' || c == '9' || c == 'a' || c == 'b' || c == 'A' || c == 'B'
    else IsHexDigit(c)
  }

  predicate MatchesUuid(s: string) {
    |s| == 36 && forall i :: 0 <= i < |s| ==> AcceptsAt(i, s[i])
  }

  /** Which characters an id may have at each of its places instead of its own. */
  lemma PatternByPlace(s: string, i: nat, c: char)
    requires MatchesUuid(s) && i < 36
    ensures |s| == 36
    ensures MatchesUuid(s[i := c]) <==>
            c in (if i == 8 || i == 13 || i == 18 || i == 23 then "-"
                  else if i == 14 then "12345"
                  else if i == 19 then "89abAB"
                  else "0123456789abcdefABCDEF")
  {
    var t := s[i := c];
    assert forall k :: 0 <= k < 36 && k != i ==> t[k] == s[k] && AcceptsAt(k, s[k]);
    assert MatchesUuid(t) <==> AcceptsAt(i, c) by {
      assert t[i] == c;
    }
    AcceptedAre(i, c);
  }

  lemma AcceptedAre(i: nat, c: char)
    ensures AcceptsAt(i, c) <==>
            c in (if i == 8 || i == 13 || i == 18 || i == 23 then "-"
                  else if i == 14 then "12345"
                  else if i == 19 then "89abAB"
                  else "0123456789abcdefABCDEF")
  {
    HexDigitsAre(c);
  }

  lemma HexDigitsAre(c: char)
    ensures IsHexDigit(c) <==> c in "0123456789abcdefABCDEF"
  {
  }

  /** The place of the k-th hexadecimal digit in a printed id. */
  function Place(k: nat): (i: nat)
    requires k < 32
    ensures i < 36
  {
    if k < 8 then k else if k < 12 then k + 1 else if k < 16 then k + 2 else if k < 20 then k + 3 else k + 4
  }

  // ----- both builders print a version 4 id -----

  function Dashed(hex: string): string
    requires |hex| == 32
  {
    hex[0..8] + "-" + hex[8..12] + "-" + hex[12..16] + "-" + hex[16..20] + "-" + hex[20..32]
  }

  predicate DashAt(i: nat) {
    i == 8 || i == 13 || i == 18 || i == 23
  }

  /** Which hexadecimal digit a place that is no dash shows. */
  function DigitAt(i: nat): (k: nat)
    requires i < 36 && !DashAt(i)
    ensures k < 32 && Place(k) == i
  {
    if i < 8 then i else if i < 13 then i - 1 else if i < 18 then i - 2 else if i < 23 then i - 3 else i - 4
  }

  lemma DashedAt(hex: string)
    requires |hex| == 32
    ensures |Dashed(hex)| == 36
    ensures forall k :: 0 <= k < 32 ==> Dashed(hex)[Place(k)] == hex[k]
    ensures forall i :: 0 <= i < 36 && DashAt(i) ==> Dashed(hex)[i] == '-'
  {
    var left := hex[0..8] + "-" + hex[8..12] + "-";
    var right := hex[12..16] + "-" + hex[16..20] + "-" + hex[20..32];
    assert Dashed(hex) == left + right;
    assert forall i :: 0 <= i < 14 ==> Dashed(hex)[i] == left[i];
    assert forall i :: 14 <= i < 36 ==> Dashed(hex)[i] == right[i - 14];
  }

  function Versioned(digest: Digest): (bytes: seq<bv8>)
    ensures |bytes| == 16
  {
    digest[..16][6 := (digest[6] & 0x0f) | 0x40][8 := (digest[8] & 0x3f) | 0x80]
  }

  lemma HexSlice(bytes: seq<bv8>, lo: nat, hi: nat)
    requires lo <= hi <= |bytes|
    ensures Hex(bytes[lo..hi]) == Hex(bytes)[2 * lo..2 * hi]
  {
    forall k | 0 <= k < 2 * (hi - lo)
      ensures Nibble(bytes[lo..hi], k) == Nibble(bytes, 2 * lo + k)
    {
      assert (2 * lo + k) / 2 == lo + k / 2 && (2 * lo + k) % 2 == k % 2;
    }
  }

  lemma StableIsDashed(digest: Digest)
    ensures StableUuid(digest) == Dashed(Hex(Versioned(digest)))
  {
    var bytes := Versioned(digest);
    HexSlice(bytes, 0, 4);
    HexSlice(bytes, 4, 6);
    HexSlice(bytes, 6, 8);
    HexSlice(bytes, 8, 10);
    HexSlice(bytes, 10, 16);
  }

  lemma LegacyIsDashed(digest: Digest)
    ensures LegacyUuid(digest) == Dashed(Hex(digest)[..32][12 := '4'][16 := 'a'])
  {
    var hash := Hex(digest);
    var h := hash[..32][12 := '4'][16 := 'a'];
    assert h[0..8] == hash[0..8] && h[8..12] == hash[8..12] && h[20..32] == hash[20..32];
    assert h[12..16] == "4" + hash[13..16] && h[16..20] == "a" + hash[17..20];
    RegroupLegacy(h[0..8], h[8..12], hash[13..16], hash[17..20], h[20..32]);
  }

  lemma RegroupLegacy(a: string, b: string, c: string, d: string, e: string)
    ensures a + "-" + b + "-4" + c + "-a" + d + "-" + e == a + "-" + b + "-" + ("4" + c) + "-" + ("a" + d) + "-" + e
  {
    assert "-4" == "-" + "4" && "-a" == "-" + "a";
  }

  /** Only the version digit and the two variant bits differ from the digest. */
  lemma VersionedDigits(digest: Digest)
    ensures forall k :: 0 <= k < 32 && k != 12 && k != 16 ==> Hex(Versioned(digest))[k] == Hex(digest)[k]
    ensures Hex(Versioned(digest))[12] == '4'
    ensures Hex(Versioned(digest))[16] in "89ab"
  {
    VersionBits(digest[6]);
    VariantBits(digest[8]);
    var bytes := Versioned(digest);
    forall k | 0 <= k < 32 && k != 12 && k != 16
      ensures Nibble(bytes, k) == Nibble(digest, k)
    {
      assert k / 2 == 6 || k / 2 == 8 || bytes[k / 2] == digest[k / 2];
    }
    assert Nibble(bytes, 12) == bytes[6] >> 4;
    assert Nibble(bytes, 16) == bytes[8] >> 4;
  }

  lemma VersionBits(b: bv8)
    ensures ((b & 0x0f) | 0x40) >> 4 == 4
    ensures ((b & 0x0f) | 0x40) & 15 == b & 15
  {
  }

  lemma VariantBits(b: bv8)
    ensures ((b & 0x3f) | 0x80) & 15 == b & 15
    ensures HexDigit(((b & 0x3f) | 0x80) >> 4) in "89ab"
  {
    var n := ((b & 0x3f) | 0x80) >> 4;
    assert n == 8 || n == 9 || n == 10 || n == 11;
  }

  /** A 32-digit text with version 4 and an RFC 4122 variant, dashed, is an id. */
  lemma DashedMatches(hex: string)
    requires |hex| == 32 && forall k :: 0 <= k < 32 ==> IsHexDigit(hex[k])
    requires hex[12] == '4' && hex[16] in "89ab"
    ensures MatchesUuid(Dashed(hex))
  {
    DashedAt(hex);
    var s := Dashed(hex);
    forall i | 0 <= i < 36
      ensures AcceptsAt(i, s[i])
    {
      if !DashAt(i) {
        assert Place(DigitAt(i)) == i;
      }
    }
  }

  /** Both builders print an id of the pattern, and from one digest they agree everywhere but in the variant digit. */
  lemma BuildersPrintUuids(digest: Digest)
    ensures MatchesUuid(StableUuid(digest)) && MatchesUuid(LegacyUuid(digest))
    ensures forall i :: 0 <= i < 36 && i != 19 ==> StableUuid(digest)[i] == LegacyUuid(digest)[i]
  {
    var stable, legacy := Hex(Versioned(digest)), Hex(digest)[..32][12 := '4'][16 := 'a'];
    StableIsDashed(digest);
    LegacyIsDashed(digest);
    VersionedDigits(digest);
    DashedMatches(stable);
    DashedMatches(legacy);
    DashedAt(stable);
    DashedAt(legacy);
    forall i | 0 <= i < 36 && i != 19
      ensures Dashed(stable)[i] == Dashed(legacy)[i]
    {
      if !DashAt(i) {
        assert Place(DigitAt(i)) == i;
      }
    }
  }

  /** The digits of the stable id are those of the digest, so two seeds share an id only if the digests nearly agree. */
  lemma StableKeepsDigest(digest: Digest, k: nat)
    requires k < 32 && k != 12 && k != 16
    ensures MatchesUuid(StableUuid(digest)) && StableUuid(digest)[Place(k)] == Hex(digest)[k]
  {
    BuildersPrintUuids(digest);
    StableIsDashed(digest);
    VersionedDigits(digest);
    DashedAt(Hex(Versioned(digest)));
  }

  // ----- which id an account gets -----

  function NonEmptyString(v: Option<Json>): Option<string> {
    if v.Some? && v.value.Str? && Trim(v.value.s) != "" then Some(Trim(v.value.s)) else None
  }

  function NormalizeUuid(v: Option<Json>): Option<string> {
    if v.Some? && v.value.Str? && MatchesUuid(Trim(v.value.s)) then Some(Trim(v.value.s)) else None
  }

  function FirstOf(a: Option<string>, b: Option<string>): Option<string> {
    if a.Some? then a else b
  }

  function AccountSeed(data: Entries<Json>, accountKey: Option<Json>): string {
    var seed := FirstOf(NonEmptyString(accountKey),
                  FirstOf(NonEmptyString(Get(data, "connectionId")),
                    FirstOf(NonEmptyString(Get(data, "workspaceId")),
                      FirstOf(NonEmptyString(Get(data, "accountId")), NonEmptyString(Get(data, "email"))))));
    if seed.Some? then seed.value else "default"
  }

  function InstallationId(data: Entries<Json>, accountKey: Option<Json>, sha: Hash): string {
    var explicit := NormalizeUuid(Get(data, "codexInstallationId"));
    var legacy := FirstOf(NonEmptyString(Get(data, "workspaceId")),
                    FirstOf(NonEmptyString(Get(data, "accountId")), NonEmptyString(Get(data, "email"))));
    if explicit.Some? then explicit.value
    else if legacy.Some? then LegacyUuid(sha(INSTALLATION_SALT + ":" + legacy.value))
    else StableUuid(sha(INSTALLATION_SALT + ":" + AccountSeed(data, accountKey)))
  }

  function SessionId(data: Entries<Json>, accountKey: Option<Json>, sha: Hash): string {
    StableUuid(sha(SESSION_SEED_PREFIX + AccountSeed(data, accountKey)))
  }

  function ThreadId(clientSessionId: Option<string>, data: Entries<Json>, accountKey: Option<Json>, sha: Hash): string {
    if clientSessionId.None? || Trim(clientSessionId.value) == "" then ""
    else StableUuid(sha(THREAD_SEED_PREFIX + AccountSeed(data, accountKey) + ":" + clientSessionId.value))
  }

  datatype Mode = Off | Device | Session | Full

  datatype Identity = Identity(
    mode: Mode,
    installationId: string,
    sessionId: string,
    threadId: string,
    turnId: string,
    windowId: string,
    turnStartedAt: int)
  {
    function Thread(): string {
      if threadId != "" then threadId else sessionId
    }
  }

  /** `turnId` and `now` stand for the random id and the clock. */
  function CreateIdentity(
      mode: Mode,
      clientSessionId: Option<string>,
      data: Entries<Json>,
      accountKey: Option<Json>,
      turnId: string,
      now: int,
      sha: Hash): Option<Identity>
  {
    if mode == Off then None
    else if mode == Device then Some(Identity(mode, InstallationId(data, accountKey, sha), "", "", "", "", now))
    else
      var sessionId := SessionId(data, accountKey, sha);
      var own := if mode == Full then "" else ThreadId(clientSessionId, data, accountKey, sha);
      var threadId := if own != "" then own else sessionId;
      Some(Identity(mode, InstallationId(data, accountKey, sha), sessionId, threadId, turnId, threadId + ":0", now))
  }

  lemma UuidIsTrimmed(s: string)
    requires MatchesUuid(s)
    ensures Trim(s) == s && s != ""
  {
    assert AcceptsAt(0, s[0]) && AcceptsAt(35, s[35]);
    TrimOfTrimmed(s);
  }

  /** Every account's installation id has the pattern; stored as the explicit id it stays, whatever else changes. */
  lemma InstallationIdIsFixed(
      data: Entries<Json>,
      later: Entries<Json>,
      accountKey: Option<Json>,
      laterKey: Option<Json>,
      sha: Hash)
    ensures MatchesUuid(InstallationId(data, accountKey, sha))
    ensures InstallationId(Put(later, "codexInstallationId", Str(InstallationId(data, accountKey, sha))), laterKey, sha)
         == InstallationId(data, accountKey, sha)
  {
    var explicit := NormalizeUuid(Get(data, "codexInstallationId"));
    var legacy := FirstOf(NonEmptyString(Get(data, "workspaceId")),
                    FirstOf(NonEmptyString(Get(data, "accountId")), NonEmptyString(Get(data, "email"))));
    var id := InstallationId(data, accountKey, sha);
    if explicit.None? {
      var source := if legacy.Some? then legacy.value else AccountSeed(data, accountKey);
      BuildersPrintUuids(sha(INSTALLATION_SALT + ":" + source));
    }
    UuidIsTrimmed(id);
    GetPut(later, "codexInstallationId", Str(id), "codexInstallationId");
  }

  /** Outside device mode all ids of an identity are ids of the pattern. */
  lemma IdentityIds(
      mode: Mode,
      clientSessionId: Option<string>,
      data: Entries<Json>,
      accountKey: Option<Json>,
      turnId: string,
      now: int,
      sha: Hash)
    requires mode == Session || mode == Full
    ensures var id := CreateIdentity(mode, clientSessionId, data, accountKey, turnId, now, sha).value;
            && MatchesUuid(id.installationId) && MatchesUuid(id.sessionId) && MatchesUuid(id.threadId)
            && id.Thread() == id.threadId
            && (mode == Full ==> id.threadId == id.sessionId)
            && Trim(id.Thread()) != ""
  {
    InstallationIdIsFixed(data, data, accountKey, accountKey, sha);
    BuildersPrintUuids(sha(SESSION_SEED_PREFIX + AccountSeed(data, accountKey)));
    if clientSessionId.Some? {
      BuildersPrintUuids(sha(THREAD_SEED_PREFIX + AccountSeed(data, accountKey) + ":" + clientSessionId.value));
    }
    var id := CreateIdentity(mode, clientSessionId, data, accountKey, turnId, now, sha).value;
    UuidIsTrimmed(id.threadId);
  }

  // ----- which text is hashed -----

  predicate IsText(v: Option<Json>, text: string) {
    v.Some? && v.value.Str? && Trim(v.value.s) == text && text != ""
  }

  predicate NoText(v: Option<Json>) {
    v.None? || !v.value.Str? || Trim(v.value.s) == ""
  }

  /** The first candidate that is a non-blank text, trimmed. */
  ghost predicate IsFirstText(candidates: seq<Option<Json>>, text: string) {
    exists i :: IsFirstTextAt(candidates, i, text)
  }

  predicate IsFirstTextAt(candidates: seq<Option<Json>>, i: int, text: string) {
    0 <= i < |candidates| && IsText(candidates[i], text) && forall j :: 0 <= j < i ==> NoText(candidates[j])
  }

  predicate AllBlank(candidates: seq<Option<Json>>) {
    forall v :: v in candidates ==> NoText(v)
  }

  /** The seed of an account: the first text among its names, or "default" without one. */
  ghost predicate IsSeed(data: Entries<Json>, accountKey: Option<Json>, seed: string) {
    var names :=
      [accountKey, Get(data, "connectionId"), Get(data, "workspaceId"), Get(data, "accountId"), Get(data, "email")];
    if AllBlank(names) then seed == "default" else IsFirstText(names, seed)
  }

  function FirstTextOf(candidates: seq<Option<Json>>): Option<string> {
    if candidates == [] then None else FirstOf(NonEmptyString(candidates[0]), FirstTextOf(candidates[1..]))
  }

  lemma {:induction false} FirstTextIs(candidates: seq<Option<Json>>, text: string)
    ensures FirstTextOf(candidates) == Some(text) <==> IsFirstText(candidates, text)
    ensures FirstTextOf(candidates) == None <==> AllBlank(candidates)
  {
    if candidates != [] {
      FirstTextIs(candidates[1..], text);
      FirstTextStep(candidates, text);
    }
  }

  lemma FirstTextStep(candidates: seq<Option<Json>>, text: string)
    requires candidates != []
    ensures IsFirstText(candidates, text) <==>
            if NoText(candidates[0]) then IsFirstText(candidates[1..], text) else IsText(candidates[0], text)
    ensures AllBlank(candidates) <==> NoText(candidates[0]) && AllBlank(candidates[1..])
  {
    assert candidates == [candidates[0]] + candidates[1..];
    if NoText(candidates[0]) {
      forall i
        ensures IsFirstTextAt(candidates, i, text) <==> IsFirstTextAt(candidates[1..], i - 1, text)
      {
        FirstTextMoves(candidates, i, text);
      }
      if i :| IsFirstTextAt(candidates[1..], i, text) {
        assert IsFirstTextAt(candidates, i + 1, text) <==> IsFirstTextAt(candidates[1..], i + 1 - 1, text);
      }
    } else if IsText(candidates[0], text) {
      assert IsFirstTextAt(candidates, 0, text);
    }
  }

  lemma FirstTextMoves(candidates: seq<Option<Json>>, i: int, text: string)
    requires candidates != [] && NoText(candidates[0])
    ensures IsFirstTextAt(candidates, i, text) <==> IsFirstTextAt(candidates[1..], i - 1, text)
  {
    var rest := candidates[1..];
    assert forall j :: 0 <= j < |rest| ==> rest[j] == candidates[j + 1];
    if IsFirstTextAt(rest, i - 1, text) {
      assert forall j :: 0 < j < i ==> candidates[j] == rest[j - 1];
    }
  }

  lemma SeedExactly(data: Entries<Json>, accountKey: Option<Json>, seed: string)
    ensures AccountSeed(data, accountKey) == seed <==> IsSeed(data, accountKey, seed)
  {
    var a, b, c, d, e :=
      accountKey, Get(data, "connectionId"), Get(data, "workspaceId"), Get(data, "accountId"), Get(data, "email");
    FiveTexts(a, b, c, d, e);
    FirstTextIs([a, b, c, d, e], seed);
  }

  lemma FiveTexts(a: Option<Json>, b: Option<Json>, c: Option<Json>, d: Option<Json>, e: Option<Json>)
    ensures FirstTextOf([a, b, c, d, e]) ==
            FirstOf(NonEmptyString(a), FirstOf(NonEmptyString(b),
              FirstOf(NonEmptyString(c), FirstOf(NonEmptyString(d), NonEmptyString(e)))))
    ensures FirstTextOf([c, d, e]) == FirstOf(NonEmptyString(c), FirstOf(NonEmptyString(d), NonEmptyString(e)))
  {
    assert [a, b, c, d, e][1..] == [b, c, d, e] && [b, c, d, e][1..] == [c, d, e];
    assert [c, d, e][1..] == [d, e] && [d, e][1..] == [e] && [e][1..] == [];
    assert FirstTextOf([e]) == NonEmptyString(e);
    assert FirstTextOf([d, e]) == FirstOf(NonEmptyString(d), NonEmptyString(e));
    assert FirstTextOf([c, d, e]) == FirstOf(NonEmptyString(c), FirstTextOf([d, e]));
    assert FirstTextOf([b, c, d, e]) == FirstOf(NonEmptyString(b), FirstTextOf([c, d, e]));
  }

  /** Every account has exactly one seed. */
  lemma SeedIsUnique(data: Entries<Json>, accountKey: Option<Json>) returns (seed: string)
    ensures IsSeed(data, accountKey, seed)
    ensures forall other :: IsSeed(data, accountKey, other) ==> other == seed
  {
    seed := AccountSeed(data, accountKey);
    SeedExactly(data, accountKey, seed);
    forall other | IsSeed(data, accountKey, other)
      ensures other == seed
    {
      SeedExactly(data, accountKey, other);
    }
  }

  /**
   * The session id is the stable id of the account's seed. The thread id is that of the seed and the client's
   * session id as given, when there is a non-blank one and the mode is not full, and else the session id.
   */
  lemma SeedOfSession(
      mode: Mode,
      clientSessionId: Option<string>,
      data: Entries<Json>,
      accountKey: Option<Json>,
      turnId: string,
      now: int,
      sha: Hash,
      seed: string)
    requires mode in {Session, Full} && IsSeed(data, accountKey, seed)
    ensures var created := CreateIdentity(mode, clientSessionId, data, accountKey, turnId, now, sha);
            created.Some? &&
            var id := created.value;
            && id.sessionId == StableUuid(sha("omniroute:codex-session-id:v1:" + seed))
            && (mode == Session && clientSessionId.Some? && Trim(clientSessionId.value) != "" ==>
                  id.threadId == StableUuid(sha("omniroute:codex-thread-id:v1:" + seed + ":" + clientSessionId.value)))
            && (mode == Full || clientSessionId.None? || Trim(clientSessionId.value) == "" ==>
                  id.threadId == id.sessionId)
            && id.windowId == id.threadId + ":0"
            && id.mode == mode && id.turnId == turnId && id.turnStartedAt == now
  {
    SeedExactly(data, accountKey, seed);
    if clientSessionId.Some? {
      BuildersPrintUuids(sha(THREAD_SEED_PREFIX + seed + ":" + clientSessionId.value));
    }
  }

  /**
   * The installation id is the explicit one when it has the pattern. Otherwise the first text among workspace,
   * account and email is hashed in the legacy layout, whatever the account key is, and without one the seed.
   */
  lemma SeedOfInstallation(
      mode: Mode,
      clientSessionId: Option<string>,
      data: Entries<Json>,
      accountKey: Option<Json>,
      turnId: string,
      now: int,
      sha: Hash,
      explicit: string,
      legacy: string,
      seed: string)
    requires mode != Off
    ensures var created := CreateIdentity(mode, clientSessionId, data, accountKey, turnId, now, sha);
            created.Some? &&
            var installation := created.value.installationId;
            var stored := IsText(Get(data, "codexInstallationId"), explicit) && MatchesUuid(explicit);
            var none := forall text :: IsText(Get(data, "codexInstallationId"), text) ==> !MatchesUuid(text);
            var names := [Get(data, "workspaceId"), Get(data, "accountId"), Get(data, "email")];
            && (stored ==> installation == explicit)
            && (none && IsFirstText(names, legacy) ==>
                  installation == LegacyUuid(sha("omniroute-codex-installation:" + legacy)))
            && (none && AllBlank(names) && IsSeed(data, accountKey, seed) ==>
                  installation == StableUuid(sha("omniroute-codex-installation:" + seed)))
  {
    var stored := Get(data, "codexInstallationId");
    if stored.Some? && stored.value.Str? && MatchesUuid(Trim(stored.value.s)) {
      UuidIsTrimmed(Trim(stored.value.s));
      assert IsText(stored, Trim(stored.value.s));
    }
    SeedExactly(data, accountKey, seed);
    var c, d, e := Get(data, "workspaceId"), Get(data, "accountId"), Get(data, "email");
    FiveTexts(accountKey, accountKey, c, d, e);
    FirstTextIs([c, d, e], legacy);
    SaltedText(legacy);
    SaltedText(seed);
  }

  lemma SaltedText(text: string)
    ensures INSTALLATION_SALT + ":" + text == "omniroute-codex-installation:" + text
  {
    assert INSTALLATION_SALT + ":" == "omniroute-codex-installation:";
  }

  /** In mode off there is no identity, and in device mode nothing but the installation. */
  lemma DeviceIdentity(clientSessionId: Option<string>, data: Entries<Json>, accountKey: Option<Json>,
                       turnId: string, now: int, sha: Hash)
    ensures CreateIdentity(Off, clientSessionId, data, accountKey, turnId, now, sha) == None
    ensures var created := CreateIdentity(Device, clientSessionId, data, accountKey, turnId, now, sha);
            created.Some? &&
            created.value.(installationId := "") == Identity(Device, "", "", "", "", "", now)
  {
  }

  /** Each byte prints as two digits, the high half first. */
  lemma HexIs(bytes: seq<bv8>, i: nat, high: bv8, low: bv8)
    requires i < |bytes| && high < 16 && low < 16 && bytes[i] == 16 * high + low
    ensures Hex(bytes)[2 * i] == "0123456789abcdef"[high as int]
    ensures Hex(bytes)[2 * i + 1] == "0123456789abcdef"[low as int]
  {
    HalvesAre(high, low);
    HexDigitIs(high);
    HexDigitIs(low);
  }

  lemma HalvesAre(high: bv8, low: bv8)
    requires high < 16 && low < 16
    ensures (16 * high + low) >> 4 == high && (16 * high + low) & 15 == low
  {
  }

  lemma HexDigitIs(n: bv8)
    requires n < 16
    ensures HexDigit(n) == "0123456789abcdef"[n as int]
  {
    assert n == 0 || n == 1 || n == 2 || n == 3 || n == 4 || n == 5 || n == 6 || n == 7 || n == 8 || n == 9
        || n == 10 || n == 11 || n == 12 || n == 13 || n == 14 || n == 15;
  }

  /** The variant digit: fixed in the legacy layout, with the digest's two lower bits in the other. */
  lemma VariantDigits(digest: Digest, top: bv8, bits: bv8, low: bv8)
    requires top < 4 && bits < 4 && low < 16 && digest[8] == 64 * top + 16 * bits + low
    ensures LegacyUuid(digest)[19] == 'a' && StableUuid(digest)[19] == "89ab"[bits as int]
  {
    StableIsDashed(digest);
    LegacyIsDashed(digest);
    DashedAt(Hex(Versioned(digest)));
    DashedAt(Hex(digest)[..32][12 := '4'][16 := 'a']);
    assert Place(16) == 19;
    VariantHalf(top, bits, low);
    assert Nibble(Versioned(digest), 16) == Versioned(digest)[8] >> 4;
  }

  lemma VariantHalf(top: bv8, bits: bv8, low: bv8)
    requires top < 4 && bits < 4 && low < 16
    ensures HexDigit((((64 * top + 16 * bits + low) & 0x3f) | 0x80) >> 4) == "89ab"[bits as int]
  {
    assert (((64 * top + 16 * bits + low) & 0x3f) | 0x80) >> 4 == 8 + bits;
    assert bits == 0 || bits == 1 || bits == 2 || bits == 3;
  }

  // ----- turn metadata -----

  /**
   * JSON.parse, JSON.stringify, and the values a JavaScript program can hold.
   * None is a parse that throws.
   */
  datatype Codec = Codec(
    parse: string -> Option<Json>,
    stringify: Json -> string,
    holds: Json -> bool)

  /** What JSON promises: blank text does not parse, and every value that can be held reads back. */
  ghost predicate Lawful(codec: Codec) {
    && (forall s :: Trim(s) == "" ==> codec.parse(s) == None)
    && (forall j :: codec.holds(j) ==> codec.parse(codec.stringify(j)) == Some(j))
    && (forall s :: codec.parse(s).Some? ==> codec.holds(codec.parse(s).value))
    && codec.holds(Obj([]))
    && (forall s: string :: codec.holds(Str(s)))
    && (forall m: Entries<Json>, k: string, v: Json ::
          codec.holds(Obj(m)) && codec.holds(v) ==> codec.holds(Obj(Put(m, k, v))))
  }

  function AsRecord(v: Option<Json>): Option<Entries<Json>> {
    if v.Some? && v.value.Obj? then Some(v.value.fields) else None
  }

  /** The record a turn-metadata text stands for; None when there is none to extend. */
  function ParsedTurn(raw: Option<Json>, codec: Codec): Option<Entries<Json>> {
    if raw.Some? && raw.value.Str? && Trim(raw.value.s) != "" then AsRecord(codec.parse(raw.value.s)) else None
  }

  function FreshFields(): Entries<Json> {
    [("thread_source", Str("user")), ("sandbox", Str("none"))]
  }

  function Started(id: Identity): Json {
    Number(id.turnStartedAt as real)
  }

  function TurnFields(id: Identity, withSession: bool): Entries<Json> {
    [("installation_id", Str(id.installationId))]
    + if withSession then
        [("session_id", Str(id.sessionId)), ("thread_id", Str(id.Thread())), ("turn_id", Str(id.turnId)),
         ("window_id", Str(id.windowId)), ("turn_started_at_unix_ms", Started(id))]
      else []
  }

  /** What the identity is written over: the record there was, or a fresh one. */
  function TurnBase(raw: Option<Json>, withSession: bool, codec: Codec): Entries<Json> {
    var parsed := ParsedTurn(raw, codec);
    if parsed.Some? then parsed.value else if withSession then FreshFields() else []
  }

  function MergedTurn(raw: Option<Json>, id: Identity, withSession: bool, codec: Codec): Entries<Json> {
    PutAll(TurnBase(raw, withSession, codec), TurnFields(id, withSession))
  }

  lemma FreshFieldsInOrder()
    ensures Put(Put([], "thread_source", Str("user")), "sandbox", Str("none")) == FreshFields()
  {
    assert "thread_source"[0] != "sandbox"[0];
  }

  method MergeTurnMetadata(raw: Option<Json>, id: Identity, withSession: bool, codec: Codec) returns (text: string)
    ensures text == codec.stringify(Obj(MergedTurn(raw, id, withSession, codec)))
  {
    var metadata: Entries<Json> := [];
    var hadExisting := false;
    if raw.Some? && raw.value.Str? && Trim(raw.value.s) != "" {
      var parsed := codec.parse(raw.value.s);
      if parsed.Some? && parsed.value.Obj? {
        metadata := parsed.value.fields;
        hadExisting := true;
      }
    }
    if !hadExisting && withSession {
      metadata := Put(metadata, "thread_source", Str("user"));
      metadata := Put(metadata, "sandbox", Str("none"));
      FreshFieldsInOrder();
    }
    ghost var base := metadata;
    ghost var updates := TurnFields(id, withSession);
    metadata := Put(metadata, "installation_id", Str(id.installationId));
    if withSession {
      metadata := Put(metadata, "session_id", Str(id.sessionId));
      metadata := Put(metadata, "thread_id", Str(id.Thread()));
      metadata := Put(metadata, "turn_id", Str(id.turnId));
      metadata := Put(metadata, "window_id", Str(id.windowId));
      metadata := Put(metadata, "turn_started_at_unix_ms", Started(id));
    }
    if withSession {
      assert PutAll(base, updates) == PutFirst(base, updates, 6) == metadata;
    } else {
      assert PutAll(base, updates) == PutFirst(base, updates, 1) == metadata;
    }
    text := codec.stringify(Obj(metadata));
  }

  function MergedText(raw: Option<Json>, id: Identity, withSession: bool, codec: Codec): string {
    codec.stringify(Obj(MergedTurn(raw, id, withSession, codec)))
  }

  lemma TurnFieldsDiffer(id: Identity, withSession: bool)
    ensures Unique(TurnFields(id, withSession))
  {
    assert "thread_id"[0] != "window_id"[0];
  }

  lemma {:induction false} HoldsPutFirst(m: Entries<Json>, updates: Entries<Json>, n: nat, codec: Codec)
    requires Lawful(codec) && codec.holds(Obj(m)) && n <= |updates|
    requires forall i :: 0 <= i < |updates| ==> codec.holds(updates[i].1)
    ensures codec.holds(Obj(PutFirst(m, updates, n)))
  {
    if n > 0 {
      HoldsPutFirst(m, updates, n - 1, codec);
    }
  }

  lemma BaseHolds(raw: Option<Json>, withSession: bool, codec: Codec)
    requires Lawful(codec)
    ensures codec.holds(Obj(TurnBase(raw, withSession, codec)))
  {
    FreshFieldsInOrder();
    FreshHolds("thread_source", Str("user"), "sandbox", Str("none"), codec);
  }

  lemma FreshHolds(k: string, v: Json, l: string, w: Json, codec: Codec)
    requires Lawful(codec) && v.Str? && w.Str?
    ensures codec.holds(Obj(Put(Put([], k, v), l, w)))
  {
    var one: Entries<Json> := Put([], k, v);
    assert codec.holds(Obj(one));
  }

  lemma UpdatesHold(id: Identity, withSession: bool, codec: Codec)
    requires Lawful(codec) && codec.holds(Started(id))
    ensures forall i :: 0 <= i < |TurnFields(id, withSession)| ==> codec.holds(TurnFields(id, withSession)[i].1)
  {
    forall i | 0 <= i < |TurnFields(id, withSession)|
      ensures codec.holds(TurnFields(id, withSession)[i].1)
    {
      var v := TurnFields(id, withSession)[i].1;
      assert v.Str? || v == Started(id);
    }
  }

  lemma ReadsBack(fields: Entries<Json>, codec: Codec)
    requires Lawful(codec) && codec.holds(Obj(fields))
    ensures codec.parse(codec.stringify(Obj(fields))) == Some(Obj(fields))
    ensures ParsedTurn(Some(Str(codec.stringify(Obj(fields)))), codec) == Some(fields)
  {
    var text := codec.stringify(Obj(fields));
    assert Trim(text) == "" ==> codec.parse(text) == None;
  }

  /** The merged text reads back as the record that was merged. */
  lemma MergedReadsBack(raw: Option<Json>, id: Identity, withSession: bool, codec: Codec)
    requires Lawful(codec) && codec.holds(Started(id))
    ensures codec.parse(MergedText(raw, id, withSession, codec)) == Some(Obj(MergedTurn(raw, id, withSession, codec)))
    ensures ParsedTurn(Some(Str(MergedText(raw, id, withSession, codec))), codec)
         == Some(MergedTurn(raw, id, withSession, codec))
  {
    var base, updates := TurnBase(raw, withSession, codec), TurnFields(id, withSession);
    BaseHolds(raw, withSession, codec);
    UpdatesHold(id, withSession, codec);
    HoldsPutFirst(base, updates, |updates|, codec);
    ReadsBack(PutAll(base, updates), codec);
  }

  /** Merging the same identity into merged metadata changes nothing. */
  lemma MergeTwice(raw: Option<Json>, id: Identity, withSession: bool, codec: Codec)
    requires Lawful(codec) && codec.holds(Started(id))
    ensures MergedText(Some(Str(MergedText(raw, id, withSession, codec))), id, withSession, codec)
         == MergedText(raw, id, withSession, codec)
  {
    MergedReadsBack(raw, id, withSession, codec);
    TurnFieldsDiffer(id, withSession);
    PutAllTwice(TurnBase(raw, withSession, codec), TurnFields(id, withSession));
  }

  /** Merged metadata carries the identity, and every other field it had before. */
  lemma MergedCarries(raw: Option<Json>, id: Identity, withSession: bool, codec: Codec, k: string)
    ensures Has(TurnFields(id, withSession), k) ==>
              Get(MergedTurn(raw, id, withSession, codec), k) == Get(TurnFields(id, withSession), k)
    ensures ParsedTurn(raw, codec).Some? && !Has(TurnFields(id, withSession), k) ==>
              Get(MergedTurn(raw, id, withSession, codec), k) == Get(ParsedTurn(raw, codec).value, k)
    ensures ParsedTurn(raw, codec).None? && !Has(TurnFields(id, withSession), k) ==>
              Get(MergedTurn(raw, id, withSession, codec), k) == if withSession then Get(FreshFields(), k) else None
  {
    TurnFieldsDiffer(id, withSession);
    GetPutAll(TurnBase(raw, withSession, codec), TurnFields(id, withSession), k);
  }

  // ----- writing an identity over a carrier -----

  /**
   * The shape both carriers share: fixed fields are set, and the turn metadata is merged,
   * always or only when there is some.
   */
  function Stamped<V>(m: Entries<V>, updates: Entries<V>, turn: string, always: bool, merge: Option<V> -> V): Entries<V>
  {
    var written := PutAll(m, updates);
    if always || Has(m, turn) then Put(written, turn, merge(Get(m, turn))) else written
  }

  lemma StampedGet<V>(m: Entries<V>, updates: Entries<V>, turn: string, always: bool, merge: Option<V> -> V, k: string)
    requires Unique(updates) && !Has(updates, turn)
    ensures var s := Stamped(m, updates, turn, always, merge);
            Get(s, k) == if k == turn then if always || Has(m, turn) then Some(merge(Get(m, turn))) else None
                         else if Has(updates, k) then Get(updates, k)
                         else Get(m, k)
  {
    GetPutAll(m, updates, k);
    GetHas(m, turn);
    GetPut(PutAll(m, updates), turn, merge(Get(m, turn)), k);
  }

  /** Stamping a carrier again changes nothing, when merging again changes nothing. */
  lemma StampedTwice<V>(m: Entries<V>, updates: Entries<V>, turn: string, always: bool, merge: Option<V> -> V)
    requires Unique(updates) && !Has(updates, turn)
    requires forall v :: merge(Some(merge(v))) == merge(v)
    ensures var s := Stamped(m, updates, turn, always, merge);
            Stamped(s, updates, turn, always, merge) == s
  {
    var s := Stamped(m, updates, turn, always, merge);
    forall i | 0 <= i < |updates|
      ensures Get(s, updates[i].0) == Some(updates[i].1)
    {
      StampedGet(m, updates, turn, always, merge, updates[i].0);
      GetEntry(updates, i);
    }
    PutFirstSame(s, updates, |updates|);
    StampedGet(m, updates, turn, always, merge, turn);
    GetHas(s, turn);
    if always || Has(m, turn) {
      PutSame(s, turn, merge(Get(m, turn)));
    }
  }

  // ----- the carriers -----

  const TURN := "x-codex-turn-metadata"
  const METADATA := "client_metadata"

  function HeaderFields(id: Identity): Entries<string> {
    [("x-codex-installation-id", id.installationId)]
    + if id.mode == Device then []
      else
        [("session-id", id.sessionId), ("session_id", id.sessionId), ("thread-id", id.Thread()),
         ("x-client-request-id", id.Thread()), ("x-codex-window-id", id.windowId)]
  }

  function MetadataFields(id: Identity): Entries<Json> {
    [("x-codex-installation-id", Str(id.installationId))]
    + if id.mode == Device then []
      else
        [("session_id", Str(id.sessionId)), ("thread_id", Str(id.Thread())), ("turn_id", Str(id.turnId)),
         ("x-codex-window-id", Str(id.windowId))]
  }

  function HeaderMerge(id: Identity, codec: Codec): Option<string> -> string {
    (v: Option<string>) => MergedText(if v.Some? then Some(Str(v.value)) else None, id, id.mode != Device, codec)
  }

  function MetadataMerge(id: Identity, codec: Codec): Option<Json> -> Json {
    (v: Option<Json>) => Str(MergedText(v, id, id.mode != Device, codec))
  }

  function IdentityHeaders(headers: Entries<string>, id: Identity, codec: Codec): Entries<string> {
    Stamped(headers, HeaderFields(id), TURN, id.mode != Device, HeaderMerge(id, codec))
  }

  /** The client metadata of a body; anything but an object there counts as none. */
  function ClientMetadata(body: Entries<Json>): Entries<Json> {
    var current: Option<Json> := Get(body, METADATA);
    if current.Some? && current.value.Obj? then current.value.fields else []
  }

  function IdentityBody(body: Entries<Json>, id: Identity, codec: Codec): Entries<Json> {
    Put(body, METADATA, Obj(Stamped(ClientMetadata(body), MetadataFields(id), TURN, false, MetadataMerge(id, codec))))
  }

  lemma FieldsDiffer(id: Identity)
    ensures Unique(HeaderFields(id)) && !Has(HeaderFields(id), TURN)
    ensures Unique(MetadataFields(id)) && !Has(MetadataFields(id), TURN)
  {
    assert "session-id"[7] != "session_id"[7];
  }

  class Headers {
    var entries: Entries<string>

    constructor (entries: Entries<string>)
      ensures this.entries == entries
    {
      this.entries := entries;
    }

    method ApplyIdentity(identity: Option<Identity>, codec: Codec)
      modifies this
      ensures entries == if identity.Some? then IdentityHeaders(old(entries), identity.value, codec) else old(entries)
    {
      if identity.None? {
        return;
      }
      var id := identity.value;
      FieldsDiffer(id);
      ghost var start := entries;
      ghost var updates := HeaderFields(id);
      entries := Put(entries, "x-codex-installation-id", id.installationId);
      if id.mode != Device {
        entries := Put(entries, "session-id", id.sessionId);
        entries := Put(entries, "session_id", id.sessionId);
        entries := Put(entries, "thread-id", id.Thread());
        entries := Put(entries, "x-client-request-id", id.Thread());
        entries := Put(entries, "x-codex-window-id", id.windowId);
        assert PutAll(start, updates) == PutFirst(start, updates, 6) == entries;
      } else {
        assert PutAll(start, updates) == PutFirst(start, updates, 1) == entries;
      }
      GetPutAll(start, updates, TURN);
      GetHas(start, TURN);
      var turn: Option<string> := Get(entries, TURN);
      if turn.Some? || id.mode != Device {
        var raw := if turn.Some? then Some(Str(turn.value)) else None;
        var text := MergeTurnMetadata(raw, id, id.mode != Device, codec);
        entries := Put(entries, TURN, text);
      }
    }
  }

  class Body {
    var fields: Entries<Json>

    constructor (fields: Entries<Json>)
      ensures this.fields == fields
    {
      this.fields := fields;
    }

    method ApplyClientMetadata(identity: Option<Identity>, codec: Codec)
      modifies this
      ensures fields == if identity.Some? then IdentityBody(old(fields), identity.value, codec) else old(fields)
    {
      if identity.None? {
        return;
      }
      var id := identity.value;
      FieldsDiffer(id);
      var existing := ClientMetadata(fields);
      ghost var start := existing;
      ghost var updates := MetadataFields(id);
      existing := Put(existing, "x-codex-installation-id", Str(id.installationId));
      if id.mode != Device {
        existing := Put(existing, "session_id", Str(id.sessionId));
        existing := Put(existing, "thread_id", Str(id.Thread()));
        existing := Put(existing, "turn_id", Str(id.turnId));
        existing := Put(existing, "x-codex-window-id", Str(id.windowId));
        assert PutAll(start, updates) == PutFirst(start, updates, 5) == existing;
      } else {
        assert PutAll(start, updates) == PutFirst(start, updates, 1) == existing;
      }
      GetPutAll(start, updates, TURN);
      GetHas(start, TURN);
      var turn: Option<Json> := Get(existing, TURN);
      if turn.Some? {
        var text := MergeTurnMetadata(turn, id, id.mode != Device, codec);
        existing := Put(existing, TURN, Str(text));
      }
      fields := Put(fields, METADATA, Obj(existing));
    }
  }

  // ----- what the carriers guarantee -----

  /** Applying an identity again changes no header. */
  lemma HeadersTwice(headers: Entries<string>, id: Identity, codec: Codec)
    requires Lawful(codec) && codec.holds(Started(id))
    ensures IdentityHeaders(IdentityHeaders(headers, id, codec), id, codec) == IdentityHeaders(headers, id, codec)
  {
    FieldsDiffer(id);
    var merge := HeaderMerge(id, codec);
    forall v: Option<string>
      ensures merge(Some(merge(v))) == merge(v)
    {
      MergeTwice(if v.Some? then Some(Str(v.value)) else None, id, id.mode != Device, codec);
    }
    StampedTwice(headers, HeaderFields(id), TURN, id.mode != Device, merge);
  }

  /** Applying an identity again changes nothing in the body. */
  lemma BodyTwice(body: Entries<Json>, id: Identity, codec: Codec)
    requires Lawful(codec) && codec.holds(Started(id))
    ensures IdentityBody(IdentityBody(body, id, codec), id, codec) == IdentityBody(body, id, codec)
  {
    FieldsDiffer(id);
    var merge := MetadataMerge(id, codec);
    forall v: Option<Json>
      ensures merge(Some(merge(v))) == merge(v)
    {
      MergeTwice(v, id, id.mode != Device, codec);
    }
    var stamped := Stamped(ClientMetadata(body), MetadataFields(id), TURN, false, merge);
    StampedTwice(ClientMetadata(body), MetadataFields(id), TURN, false, merge);
    ClientMetadataOf(body, id, codec);
    PutSame(IdentityBody(body, id, codec), METADATA, Obj(stamped));
  }

  lemma ClientMetadataOf(body: Entries<Json>, id: Identity, codec: Codec)
    ensures Get(IdentityBody(body, id, codec), METADATA)
         == Some(Obj(Stamped(ClientMetadata(body), MetadataFields(id), TURN, false, MetadataMerge(id, codec))))
    ensures ClientMetadata(IdentityBody(body, id, codec))
         == Stamped(ClientMetadata(body), MetadataFields(id), TURN, false, MetadataMerge(id, codec))
    ensures forall k :: k != METADATA ==> Get(IdentityBody(body, id, codec), k) == Get(body, k)
  {
    var stamped := Stamped(ClientMetadata(body), MetadataFields(id), TURN, false, MetadataMerge(id, codec));
    forall k
      ensures Get(IdentityBody(body, id, codec), k) == if k == METADATA then Some(Obj(stamped)) else Get(body, k)
    {
      GetPut(body, METADATA, Obj(stamped), k);
    }
  }

  /** The turn metadata found in a body, read as a record. */
  function TurnRecord(body: Entries<Json>, codec: Codec): Option<Entries<Json>> {
    var raw: Option<Json> := Get(ClientMetadata(body), TURN);
    if raw.Some? && raw.value.Str? then AsRecord(codec.parse(raw.value.s)) else AsRecord(raw)
  }

  predicate NonBlank(v: Option<Json>) {
    v.Some? && v.value.Str? && Trim(v.value.s) != ""
  }

  /** A body names both the thread and the turn it belongs to. */
  predicate HasNativeTurnBinding(body: Entries<Json>, codec: Codec) {
    var turn := TurnRecord(body, codec);
    turn.Some? && NonBlank(Get(turn.value, "thread_id")) && NonBlank(Get(turn.value, "turn_id"))
  }

  /** Turn metadata that was there reads back as the merged record; otherwise there is none. */
  lemma TurnRecordAfter(body: Entries<Json>, id: Identity, codec: Codec)
    requires Lawful(codec) && codec.holds(Started(id))
    ensures TurnRecord(IdentityBody(body, id, codec), codec)
         == if Has(ClientMetadata(body), TURN)
            then Some(MergedTurn(Get(ClientMetadata(body), TURN), id, id.mode != Device, codec))
            else None
  {
    FieldsDiffer(id);
    ClientMetadataOf(body, id, codec);
    var before: Option<Json> := Get(ClientMetadata(body), TURN);
    StampedGet(ClientMetadata(body), MetadataFields(id), TURN, false, MetadataMerge(id, codec), TURN);
    MergedReadsBack(before, id, id.mode != Device, codec);
  }

  lemma TurnFieldsCarry(id: Identity)
    ensures Get(TurnFields(id, true), "installation_id") == Some(Str(id.installationId))
    ensures Get(TurnFields(id, true), "session_id") == Some(Str(id.sessionId))
    ensures Get(TurnFields(id, true), "thread_id") == Some(Str(id.Thread()))
    ensures Get(TurnFields(id, true), "turn_id") == Some(Str(id.turnId))
    ensures Get(TurnFields(id, true), "window_id") == Some(Str(id.windowId))
  {
    TurnFieldsDiffer(id, true);
    var fields := TurnFields(id, true);
    GetEntry(fields, 0);
    GetEntry(fields, 1);
    GetEntry(fields, 2);
    GetEntry(fields, 3);
    GetEntry(fields, 4);
  }

  /**
   * With the session fields, a body has a native binding afterwards exactly when it had turn metadata of
   * any kind, even null.
   */
  lemma BoundExactly(body: Entries<Json>, id: Identity, codec: Codec)
    requires Lawful(codec) && codec.holds(Started(id)) && id.mode != Device
    requires Trim(id.Thread()) != "" && Trim(id.turnId) != ""
    ensures HasNativeTurnBinding(IdentityBody(body, id, codec), codec) <==> Has(ClientMetadata(body), TURN)
  {
    var raw: Option<Json> := Get(ClientMetadata(body), TURN);
    TurnRecordAfter(body, id, codec);
    TurnFieldsCarry(id);
    GetHas(TurnFields(id, true), "thread_id");
    GetHas(TurnFields(id, true), "turn_id");
    MergedCarries(raw, id, true, codec, "thread_id");
    MergedCarries(raw, id, true, codec, "turn_id");
  }

  /** In device mode a binding survives exactly when it was written as text: metadata given as an object is dropped. */
  lemma BoundInDeviceModeExactly(body: Entries<Json>, id: Identity, codec: Codec)
    requires Lawful(codec) && codec.holds(Started(id)) && id.mode == Device
    ensures (HasNativeTurnBinding(IdentityBody(body, id, codec), codec)
             <==> HasNativeTurnBinding(body, codec) && Get(ClientMetadata(body), TURN).value.Str?)
  {
    var raw: Option<Json> := Get(ClientMetadata(body), TURN);
    GetHas(ClientMetadata(body), TURN);
    TurnRecordAfter(body, id, codec);
    DeviceKeepsOthers(raw, id, codec, "thread_id");
    DeviceKeepsOthers(raw, id, codec, "turn_id");
    assert raw.Some? && raw.value.Str? && Trim(raw.value.s) == "" ==> codec.parse(raw.value.s) == None;
  }

  lemma DeviceKeepsOthers(raw: Option<Json>, id: Identity, codec: Codec, k: string)
    requires k == "thread_id" || k == "turn_id"
    ensures var parsed := ParsedTurn(raw, codec);
            Get(MergedTurn(raw, id, false, codec), k) == if parsed.Some? then Get(parsed.value, k) else None
  {
    MergedCarries(raw, id, false, codec, k);
    assert |TurnFields(id, false)| == 1;
  }

  /** A bound body that loses its binding. */
  lemma ObjectMetadataIsDropped(thread: string, turn: string, id: Identity, codec: Codec) returns (body: Entries<Json>)
    requires Lawful(codec) && codec.holds(Started(id)) && id.mode == Device
    requires Trim(thread) != "" && Trim(turn) != ""
    ensures HasNativeTurnBinding(body, codec)
    ensures !HasNativeTurnBinding(IdentityBody(body, id, codec), codec)
  {
    var record: Entries<Json> := [("thread_id", Str(thread)), ("turn_id", Str(turn))];
    body := [(METADATA, Obj([(TURN, Obj(record))]))];
    assert Get(record, "turn_id") == Some(Str(turn)) by {
      assert |"thread_id"| != |"turn_id"|;
    }
    assert TurnRecord(body, codec) == Some(record);
    BoundInDeviceModeExactly(body, id, codec);
  }

  /** The turn metadata a header bag carries, read as a record. */
  function HeaderTurn(headers: Entries<string>, codec: Codec): Option<Entries<Json>> {
    var raw: Option<string> := Get(headers, TURN);
    if raw.Some? then AsRecord(codec.parse(raw.value)) else None
  }

  function HeaderRaw(headers: Entries<string>): Option<Json> {
    var raw: Option<string> := Get(headers, TURN);
    if raw.Some? then Some(Str(raw.value)) else None
  }

  /** The headers carry turn metadata afterwards when they did before, and always outside device mode. */
  lemma HeaderTurnAfter(headers: Entries<string>, id: Identity, codec: Codec)
    requires Lawful(codec) && codec.holds(Started(id))
    ensures HeaderTurn(IdentityHeaders(headers, id, codec), codec)
         == if id.mode != Device || Has(headers, TURN)
            then Some(MergedTurn(HeaderRaw(headers), id, id.mode != Device, codec))
            else None
  {
    FieldsDiffer(id);
    StampedGet(headers, HeaderFields(id), TURN, id.mode != Device, HeaderMerge(id, codec), TURN);
    MergedReadsBack(HeaderRaw(headers), id, id.mode != Device, codec);
  }

  /** The two records of turn metadata, wherever they exist, hold the same under every key of the identity. */
  lemma TurnRecordsAgree(headers: Entries<string>, body: Entries<Json>, id: Identity, codec: Codec, k: string)
    requires Lawful(codec) && codec.holds(Started(id))
    requires Has(TurnFields(id, id.mode != Device), k)
    ensures var turn := HeaderTurn(IdentityHeaders(headers, id, codec), codec);
            && (id.mode != Device ==> turn.Some?)
            && (turn.Some? ==> Get(turn.value, k) == Get(TurnFields(id, id.mode != Device), k))
    ensures var turn := TurnRecord(IdentityBody(body, id, codec), codec);
            turn.Some? ==> Get(turn.value, k) == Get(TurnFields(id, id.mode != Device), k)
  {
    HeaderTurnAfter(headers, id, codec);
    MergedCarries(HeaderRaw(headers), id, id.mode != Device, codec, k);
    TurnRecordAfter(body, id, codec);
    MergedCarries(Get(ClientMetadata(body), TURN), id, id.mode != Device, codec, k);
  }

  /**
   * A header, a field of the client metadata and, wherever there is turn metadata, a field of it say the
   * same. Outside device mode the headers have turn metadata.
   */
  predicate SaidEverywhere(
      headers: Entries<string>, body: Entries<Json>, mode: Mode, codec: Codec,
      header: string, field: string, turnField: string, value: string)
  {
    var headerTurn := HeaderTurn(headers, codec);
    var bodyTurn := TurnRecord(body, codec);
    && Get(headers, header) == Some(value)
    && Get(ClientMetadata(body), field) == Some(Str(value))
    && (mode != Device ==> headerTurn.Some?)
    && (headerTurn.Some? ==> Get(headerTurn.value, turnField) == Some(Str(value)))
    && (bodyTurn.Some? ==> Get(bodyTurn.value, turnField) == Some(Str(value)))
  }

  /** Fields at these places of the three lists agree once written, when their values do. */
  lemma SameAt(headers: Entries<string>, body: Entries<Json>, id: Identity, codec: Codec, i: nat, j: nat, t: nat)
    requires Lawful(codec) && codec.holds(Started(id))
    requires i < |HeaderFields(id)| && j < |MetadataFields(id)| && t < |TurnFields(id, id.mode != Device)|
    requires MetadataFields(id)[j].1 == Str(HeaderFields(id)[i].1) == TurnFields(id, id.mode != Device)[t].1
    ensures SaidEverywhere(IdentityHeaders(headers, id, codec), IdentityBody(body, id, codec), id.mode, codec,
              HeaderFields(id)[i].0, MetadataFields(id)[j].0, TurnFields(id, id.mode != Device)[t].0,
              HeaderFields(id)[i].1)
  {
    var session := id.mode != Device;
    FieldsDiffer(id);
    TurnFieldsDiffer(id, session);
    GetEntry(HeaderFields(id), i);
    GetEntry(MetadataFields(id), j);
    GetEntry(TurnFields(id, session), t);
    StampedGet(headers, HeaderFields(id), TURN, session, HeaderMerge(id, codec), HeaderFields(id)[i].0);
    ClientMetadataOf(body, id, codec);
    var field := MetadataFields(id)[j].0;
    StampedGet(ClientMetadata(body), MetadataFields(id), TURN, false, MetadataMerge(id, codec), field);
    TurnRecordsAgree(headers, body, id, codec, TurnFields(id, session)[t].0);
  }

  /** One identity reaches every carrier: in every mode its installation, */
  lemma InstallationEverywhere(headers: Entries<string>, body: Entries<Json>, id: Identity, codec: Codec)
    requires Lawful(codec) && codec.holds(Started(id))
    ensures SaidEverywhere(IdentityHeaders(headers, id, codec), IdentityBody(body, id, codec), id.mode, codec,
              "x-codex-installation-id", "x-codex-installation-id", "installation_id", id.installationId)
  {
    SameAt(headers, body, id, codec, 0, 0, 0);
  }

  /** and outside device mode its session, */
  lemma SessionEverywhere(headers: Entries<string>, body: Entries<Json>, id: Identity, codec: Codec)
    requires Lawful(codec) && codec.holds(Started(id)) && id.mode != Device
    ensures SaidEverywhere(IdentityHeaders(headers, id, codec), IdentityBody(body, id, codec), id.mode, codec,
              "session-id", "session_id", "session_id", id.sessionId)
  {
    assert HeaderFields(id)[1] == ("session-id", id.sessionId);
    assert MetadataFields(id)[1] == ("session_id", Str(id.sessionId));
    assert TurnFields(id, id.mode != Device)[1] == ("session_id", Str(id.sessionId));
    SameAt(headers, body, id, codec, 1, 1, 1);
  }

  /** its thread, */
  lemma ThreadEverywhere(headers: Entries<string>, body: Entries<Json>, id: Identity, codec: Codec)
    requires Lawful(codec) && codec.holds(Started(id)) && id.mode != Device
    ensures SaidEverywhere(IdentityHeaders(headers, id, codec), IdentityBody(body, id, codec), id.mode, codec,
              "thread-id", "thread_id", "thread_id", id.Thread())
  {
    assert HeaderFields(id)[3] == ("thread-id", id.Thread());
    assert MetadataFields(id)[2] == ("thread_id", Str(id.Thread()));
    assert TurnFields(id, id.mode != Device)[2] == ("thread_id", Str(id.Thread()));
    SameAt(headers, body, id, codec, 3, 2, 2);
  }

  /** and its window. */
  lemma WindowEverywhere(headers: Entries<string>, body: Entries<Json>, id: Identity, codec: Codec)
    requires Lawful(codec) && codec.holds(Started(id)) && id.mode != Device
    ensures SaidEverywhere(IdentityHeaders(headers, id, codec), IdentityBody(body, id, codec), id.mode, codec,
              "x-codex-window-id", "x-codex-window-id", "window_id", id.windowId)
  {
    assert HeaderFields(id)[5] == ("x-codex-window-id", id.windowId);
    assert MetadataFields(id)[4] == ("x-codex-window-id", Str(id.windowId));
    assert TurnFields(id, id.mode != Device)[4] == ("window_id", Str(id.windowId));
    SameAt(headers, body, id, codec, 5, 4, 4);
  }

  // ----- the written names -----

  /** Every session header by its name, and every other one but the turn metadata as it was. */
  lemma HeadersAre(headers: Entries<string>, id: Identity, codec: Codec, k: string)
    requires id.mode != Device
    ensures var after := IdentityHeaders(headers, id, codec);
            && Get(after, "x-codex-installation-id") == Some(id.installationId)
            && Get(after, "session-id") == Some(id.sessionId) && Get(after, "session_id") == Some(id.sessionId)
            && Get(after, "thread-id") == Some(id.Thread())
            && Get(after, "x-client-request-id") == Some(id.Thread())
            && Get(after, "x-codex-window-id") == Some(id.windowId)
    ensures var written := ["x-codex-installation-id", "session-id", "session_id", "thread-id", "x-client-request-id",
                            "x-codex-window-id", "x-codex-turn-metadata"];
            k !in written ==> Get(IdentityHeaders(headers, id, codec), k) == Get(headers, k)
  {
    forall i: nat | i < |HeaderFields(id)|
      ensures Get(IdentityHeaders(headers, id, codec), HeaderFields(id)[i].0) == Some(HeaderFields(id)[i].1)
    {
      HeaderFieldAt(headers, id, codec, i);
    }
    var fields := HeaderFields(id);
    assert fields[0].0 == "x-codex-installation-id" && fields[1].0 == "session-id" && fields[2].0 == "session_id";
    assert fields[3].0 == "thread-id" && fields[4].0 == "x-client-request-id" && fields[5].0 == "x-codex-window-id";
    if k != TURN && forall i :: 0 <= i < |fields| ==> fields[i].0 != k {
      HeaderElsewhere(headers, id, codec, k);
    }
  }

  /** In device mode the installation alone is written. */
  lemma DeviceHeadersAre(headers: Entries<string>, id: Identity, codec: Codec, k: string)
    requires id.mode == Device
    ensures Get(IdentityHeaders(headers, id, codec), "x-codex-installation-id") == Some(id.installationId)
    ensures k !in ["x-codex-installation-id", "x-codex-turn-metadata"] ==>
              Get(IdentityHeaders(headers, id, codec), k) == Get(headers, k)
  {
    HeaderFieldAt(headers, id, codec, 0);
    assert HeaderFields(id)[0].0 == "x-codex-installation-id";
    if k != TURN && k != HeaderFields(id)[0].0 {
      HeaderElsewhere(headers, id, codec, k);
    }
  }

  lemma HeaderFieldAt(headers: Entries<string>, id: Identity, codec: Codec, i: nat)
    requires i < |HeaderFields(id)|
    ensures Get(IdentityHeaders(headers, id, codec), HeaderFields(id)[i].0) == Some(HeaderFields(id)[i].1)
  {
    FieldsDiffer(id);
    GetEntry(HeaderFields(id), i);
    StampedGet(headers, HeaderFields(id), TURN, id.mode != Device, HeaderMerge(id, codec), HeaderFields(id)[i].0);
  }

  lemma HeaderElsewhere(headers: Entries<string>, id: Identity, codec: Codec, k: string)
    requires k != TURN && forall i :: 0 <= i < |HeaderFields(id)| ==> HeaderFields(id)[i].0 != k
    ensures Get(IdentityHeaders(headers, id, codec), k) == Get(headers, k)
  {
    FieldsDiffer(id);
    StampedGet(headers, HeaderFields(id), TURN, id.mode != Device, HeaderMerge(id, codec), k);
  }

  lemma MetadataFieldAt(body: Entries<Json>, id: Identity, codec: Codec, i: nat)
    requires i < |MetadataFields(id)|
    ensures Get(ClientMetadata(IdentityBody(body, id, codec)), MetadataFields(id)[i].0)
         == Some(MetadataFields(id)[i].1)
  {
    FieldsDiffer(id);
    GetEntry(MetadataFields(id), i);
    ClientMetadataOf(body, id, codec);
    StampedGet(ClientMetadata(body), MetadataFields(id), TURN, false, MetadataMerge(id, codec),
               MetadataFields(id)[i].0);
  }

  lemma MetadataElsewhere(body: Entries<Json>, id: Identity, codec: Codec, k: string)
    requires k != TURN && forall i :: 0 <= i < |MetadataFields(id)| ==> MetadataFields(id)[i].0 != k
    ensures Get(ClientMetadata(IdentityBody(body, id, codec)), k) == Get(ClientMetadata(body), k)
  {
    FieldsDiffer(id);
    ClientMetadataOf(body, id, codec);
    StampedGet(ClientMetadata(body), MetadataFields(id), TURN, false, MetadataMerge(id, codec), k);
  }

  /** The client metadata stays an object, and outside it the body stays. */
  lemma BodyIs(body: Entries<Json>, id: Identity, codec: Codec, k: string)
    ensures var before: Option<Json> := Get(body, "client_metadata");
            ClientMetadata(body) == if before.Some? && before.value.Obj? then before.value.fields else []
    ensures Get(IdentityBody(body, id, codec), "client_metadata")
         == Some(Obj(ClientMetadata(IdentityBody(body, id, codec))))
    ensures k != "client_metadata" ==> Get(IdentityBody(body, id, codec), k) == Get(body, k)
  {
    ClientMetadataOf(body, id, codec);
  }

  /** Every field of the client metadata by its name. */
  lemma MetadataIs(body: Entries<Json>, id: Identity, codec: Codec, k: string)
    requires id.mode != Device
    ensures var after := ClientMetadata(IdentityBody(body, id, codec));
            && Get(after, "x-codex-installation-id") == Some(Str(id.installationId))
            && Get(after, "session_id") == Some(Str(id.sessionId))
            && Get(after, "thread_id") == Some(Str(id.Thread()))
            && Get(after, "turn_id") == Some(Str(id.turnId))
            && Get(after, "x-codex-window-id") == Some(Str(id.windowId))
    ensures var written := ["x-codex-installation-id", "session_id", "thread_id", "turn_id", "x-codex-window-id",
                            "x-codex-turn-metadata"];
            k !in written ==> Get(ClientMetadata(IdentityBody(body, id, codec)), k) == Get(ClientMetadata(body), k)
  {
    forall i: nat | i < |MetadataFields(id)|
      ensures Get(ClientMetadata(IdentityBody(body, id, codec)), MetadataFields(id)[i].0)
           == Some(MetadataFields(id)[i].1)
    {
      MetadataFieldAt(body, id, codec, i);
    }
    var fields := MetadataFields(id);
    assert fields[0].0 == "x-codex-installation-id" && fields[1].0 == "session_id" && fields[2].0 == "thread_id";
    assert fields[3].0 == "turn_id" && fields[4].0 == "x-codex-window-id";
    if k != TURN && forall i :: 0 <= i < |fields| ==> fields[i].0 != k {
      MetadataElsewhere(body, id, codec, k);
    }
  }

  lemma DeviceMetadataIs(body: Entries<Json>, id: Identity, codec: Codec, k: string)
    requires id.mode == Device
    ensures Get(ClientMetadata(IdentityBody(body, id, codec)), "x-codex-installation-id")
         == Some(Str(id.installationId))
    ensures k !in ["x-codex-installation-id", "x-codex-turn-metadata"] ==>
              Get(ClientMetadata(IdentityBody(body, id, codec)), k) == Get(ClientMetadata(body), k)
  {
    MetadataFieldAt(body, id, codec, 0);
    assert MetadataFields(id)[0].0 == "x-codex-installation-id";
    if k != TURN && k != MetadataFields(id)[0].0 {
      MetadataElsewhere(body, id, codec, k);
    }
  }

  /** The merged record when there was none to extend: a fresh one in full, in device mode the installation alone. */
  lemma FreshTurnIs(raw: Option<Json>, id: Identity, codec: Codec)
    requires raw.Some? && raw.value.Str? && Trim(raw.value.s) != "" ==>
               codec.parse(raw.value.s).None? || !codec.parse(raw.value.s).value.Obj?
    ensures MergedTurn(raw, id, true, codec) ==
            [("thread_source", Str("user")), ("sandbox", Str("none")), ("installation_id", Str(id.installationId)),
             ("session_id", Str(id.sessionId)), ("thread_id", Str(id.Thread())), ("turn_id", Str(id.turnId)),
             ("window_id", Str(id.windowId)), ("turn_started_at_unix_ms", Number(id.turnStartedAt as real))]
    ensures MergedTurn(raw, id, false, codec) == [("installation_id", Str(id.installationId))]
  {
    FreshFieldsAreApart(id);
    TurnFieldsDiffer(id, true);
    AllAreNew(FreshFields(), TurnFields(id, true), |TurnFields(id, true)|);
    AllAreNew([], TurnFields(id, false), |TurnFields(id, false)|);
  }

  lemma FreshFieldsAreApart(id: Identity)
    ensures forall i :: 0 <= i < |TurnFields(id, true)| ==> !Has(FreshFields(), TurnFields(id, true)[i].0)
  {
    var fields := TurnFields(id, true);
    forall i | 0 <= i < |fields|
      ensures fields[i].0 != "thread_source" && fields[i].0 != "sandbox"
    {
      assert |fields[i].0| != 13 && (|fields[i].0| != 7 || fields[i].0[0] == 't');
    }
  }

  lemma {:induction false} AllAreNew(m: Entries<Json>, updates: Entries<Json>, n: nat)
    requires Unique(updates) && n <= |updates|
    requires forall i :: 0 <= i < |updates| ==> !Has(m, updates[i].0)
    ensures PutFirst(m, updates, n) == m + updates[..n]
  {
    if n > 0 {
      AllAreNew(m, updates, n - 1);
      var before := m + updates[..n - 1];
      assert !Has(before, updates[n - 1].0) by {
        assert forall i :: |m| <= i < |before| ==> before[i] == updates[i - |m|];
        assert forall i :: 0 <= i < |m| ==> before[i] == m[i];
      }
      PutKeys(before, updates[n - 1].0, updates[n - 1].1);
      assert updates[..n] == updates[..n - 1] + [updates[n - 1]];
    }
  }

  /** The merged record when the text parses to one: that one, with the identity's fields by their names. */
  lemma ExtendedTurnIs(text: string, fields: Entries<Json>, id: Identity, codec: Codec, k: string)
    requires Trim(text) != "" && codec.parse(text) == Some(Obj(fields))
    ensures var merged := MergedTurn(Some(Str(text)), id, true, codec);
            && Get(merged, "installation_id") == Some(Str(id.installationId))
            && Get(merged, "session_id") == Some(Str(id.sessionId))
            && Get(merged, "thread_id") == Some(Str(id.Thread()))
            && Get(merged, "turn_id") == Some(Str(id.turnId))
            && Get(merged, "window_id") == Some(Str(id.windowId))
            && Get(merged, "turn_started_at_unix_ms") == Some(Number(id.turnStartedAt as real))
    ensures var written := ["installation_id", "session_id", "thread_id", "turn_id", "window_id",
                            "turn_started_at_unix_ms"];
            k !in written ==> Get(MergedTurn(Some(Str(text)), id, true, codec), k) == Get(fields, k)
    ensures MergedTurn(Some(Str(text)), id, false, codec) == Put(fields, "installation_id", Str(id.installationId))
  {
    var updates := TurnFields(id, true);
    forall i: nat | i < |updates|
      ensures Get(PutAll(fields, updates), updates[i].0) == Some(updates[i].1)
    {
      TurnFieldsDiffer(id, true);
      GetPutFirst(fields, updates, |updates|, updates[i].0);
    }
    assert updates[0].0 == "installation_id" && updates[1].0 == "session_id" && updates[2].0 == "thread_id";
    assert updates[3].0 == "turn_id" && updates[4].0 == "window_id" && updates[5].0 == "turn_started_at_unix_ms";
    if forall i :: 0 <= i < |updates| ==> updates[i].0 != k {
      TurnFieldsDiffer(id, true);
      GetPutFirst(fields, updates, |updates|, k);
    }
    assert PutAll(fields, TurnFields(id, false)) == PutFirst(fields, TurnFields(id, false), 1);
  }

  /** Where the merged text is written: always as a header outside device mode, else only over what is there. */
  lemma TurnTextIs(headers: Entries<string>, body: Entries<Json>, id: Identity, codec: Codec)
    ensures var before: Option<string> := Get(headers, "x-codex-turn-metadata");
            var raw: Option<Json> := if before.Some? then Some(Str(before.value)) else None;
            Get(IdentityHeaders(headers, id, codec), "x-codex-turn-metadata") ==
            if id.mode != Device || before.Some?
            then Some(codec.stringify(Obj(MergedTurn(raw, id, id.mode != Device, codec)))) else None
    ensures var raw: Option<Json> := Get(ClientMetadata(body), "x-codex-turn-metadata");
            Get(ClientMetadata(IdentityBody(body, id, codec)), "x-codex-turn-metadata") ==
            if raw.Some? then Some(Str(codec.stringify(Obj(MergedTurn(raw, id, id.mode != Device, codec))))) else None
  {
    FieldsDiffer(id);
    StampedGet(headers, HeaderFields(id), TURN, id.mode != Device, HeaderMerge(id, codec), TURN);
    GetHas(headers, TURN);
    ClientMetadataOf(body, id, codec);
    StampedGet(ClientMetadata(body), MetadataFields(id), TURN, false, MetadataMerge(id, codec), TURN);
    GetHas(ClientMetadata(body), TURN);
  }

  /** The turn metadata of a body is this record, as such or as text. */
  ghost predicate CarriesTurn(body: Entries<Json>, codec: Codec, turn: Entries<Json>) {
    exists metadata: Entries<Json> :: Get(body, "client_metadata") == Some(Obj(metadata)) &&
      var raw: Option<Json> := Get(metadata, "x-codex-turn-metadata");
      raw == Some(Obj(turn)) || (raw.Some? && raw.value.Str? && codec.parse(raw.value.s) == Some(Obj(turn)))
  }

  /** A body is bound exactly when its turn metadata is a record with a non-blank thread and a non-blank turn. */
  lemma BindingIs(body: Entries<Json>, codec: Codec, turn: Entries<Json>)
    ensures CarriesTurn(body, codec, turn) ==>
              (HasNativeTurnBinding(body, codec) <==>
                 !NoText(Get(turn, "thread_id")) && !NoText(Get(turn, "turn_id")))
    ensures (forall other :: !CarriesTurn(body, codec, other)) ==> !HasNativeTurnBinding(body, codec)
  {
    var found := TurnRecord(body, codec);
    if found.Some? {
      assert Get(body, "client_metadata") == Some(Obj(ClientMetadata(body)));
      assert CarriesTurn(body, codec, found.value);
    }
  }
}
