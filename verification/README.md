# Verified model of the gateway core

A Dafny 4.11 model of the parts of the gateway that carry an algorithm rather than a table, with proofs
of what they promise. `dafny verify dfyconfig.toml` checks all of it.

| file | models |
|---|---|
| `AdaptaWeb.dfy` | the streaming transform from Adapta events to OpenAI chunks, and the collector that reads the same feed |
| `LoginHeaderCapture.dfy` | the capture of configured request headers |
| `LoginManager.dfy` | one login of the desktop shell: timers, polls, cookie and storage replies, window close, timeout, cancel |
| `FreeModelCatalog.dfy` | token totals that count every shared pool once |
| `AccountRotation.dfy` | round-robin choice of accounts with exponential cooldown |
| `EnvBootstrap.dfy` | the env-file reader and writer, and the bootstrap of the server secrets |
| `ToolCloaking.dfy` | removal of rejected schema keys from tool declarations |
| `ScopedModelIds.dfy` | embedding and rerank catalogue ids and their parsers |
| `RegistryUtils.dfy` | the cached model index and the media catalogues |
| `CliFingerprints.dfy` | body-field and header reordering |
| `CodexIdentity.dfy` | the Codex identity: derivation of its ids, and its carriers |
| `AnthropicHeaders.dfy` | merging of client beta tokens |
| `ContextEditing.dfy` | delegated context editing |
| `ProviderModels.dfy` | model lookup across providers, and effort suffixes |
| `ServerReadiness.dfy` | polling the server until it is ready |
| `AudioRegistry.dfy` | the search for an alternate audio provider |
| `JsText.dfy`, `OrderedMaps.dfy`, `Json.dfy` | JavaScript strings, lists, objects and JSON values |

Code that works step by step is modelled as methods with loops and as classes whose methods change their
fields. Each method is proved equal to a specification function, and the lemmas say what that function
means. Registries are arbitrary data, not the literal tables. The clock, random bytes, SHA-256 and JSON
parsing are parameters, and so is `toLowerCase` except for effort suffixes; what results ask of a JSON parser
is written out (`AdaptaWeb.IgnoresPadding`, `CodexIdentity.Lawful`).

## Where the code falls short of what is expected of it

For each of these there is a concrete input at which the code falls short, and the exact condition under
which it does not.

- The two Adapta readers differ by the notice of an error event, when text stands behind a terminal event, on
  a delta that is no string and not printed as the empty one, and on a delta behind padding that `trim` removes
  but JSON does not allow (`ReadersAgreeExactly`, `QuietReadersAgreeExactly`; `TextBehindEndDisagrees`,
  `PrintedDeltaDisagrees`, `PaddedPayloadDisagrees`). When each reader has something of its own, equal texts are
  an accident of the remainders (`ReadersAgreeFromFirstDifference`; `LossAndNoticeMayCancel`,
  `LossesOnBothSidesMayCancel`).
- A storage item that is absent is reported as null and counts as found, so a login that needs it succeeds
  without it (`NullExactlyOverRuns`; `MissingTokenSucceeds`).
- The header hook of a finished login still fills the manager's header credentials, and a later login can
  succeed with them (`LateHeadersChangeExactly`; `LateHeaderReachesNextLogin`).
- The status of a cancelled login carries no provider id, because it is read after the clean-up
  (`SettlingStatusExactly`, `LastStatusExactly`; `CancelledStatusNamesNoProvider`).
- A persisted secret is replaced when the process environment or the preferred file sets it to the empty
  string, and the next start replaces it again (`PersistedKeptExactly`, `SecondStartGeneratesMasked`;
  `MaskedSecretIsLost`).
- A registered model does not read back from its catalogue id when its provider lists it with and without
  the provider prefix, or when the provider is an alias key, unless the alias leads to no registered provider
  and the model id does not carry the prefix (`RerankRoundTrip`; `ShadowedModelIsLost`,
  `AliasedProviderDiverts`). For the embedding parser neither does one whose catalogue id a model alias
  rewrites, unless the rewritten text leads back by itself (`EmbeddingRoundTrip`,
  `RewrittenWithinProviderExactly`; `AliasedModelIsLost`). All this is for slash-free provider ids.
- Turn metadata that a body carries as an object, which `hasNativeCodexTurnBinding` accepts, is dropped by
  the merge; in device mode the body thereby loses its binding (`BoundInDeviceModeExactly`,
  `ObjectMetadataIsDropped`).
- The documentation of context editing calls thinking-first order a requirement; a list that already holds a
  tool-use edit is left in the caller's order (`ThinkingFirstExactly`; `WrongOrderStays`).
- For an id that is listed, or whose basename is, the richest entry is sought only among the entries each
  provider lists first under it (`RichestExactly`; `RepeatIsPassedOver`, `RepeatIsPassedOverByBasename`).

## Model

| member | source | states |
|---|---|---|
| AdaptaWeb.StreamTransform.ProcessLine | open-sse/executors/adapta-web.ts:285-321 | one line either adds its text to the output or, if terminal, closes the stream once with stop and end marker |
| AdaptaWeb.StreamTransform.Finalize | open-sse/executors/adapta-web.ts:262-274 | whatever was emitted, the output becomes role, contents, stop, end marker, and the stream is closed once |
| AdaptaWeb.StreamTransform.Run | open-sse/executors/adapta-web.ts:276-327 | for every cutting into chunks, and for a normal end or a failing read, the frames are those of the event automaton over the complete lines of the concatenated text: one role, contents, one stop, one end marker, closed once |
| AdaptaWeb.Collect | open-sse/executors/adapta-web.ts:465-492 | the collected text depends on the concatenated text alone; a failing read rejects |
| AdaptaWeb.LinesAppend | open-sse/executors/adapta-web.ts:281-283 | splitting the kept tail with the next chunk continues the line sequence of the whole text |
| AdaptaWeb.TextAfterTerminal | open-sse/executors/adapta-web.ts:310-320 | text behind the first terminal event never changes the frames |
| AdaptaWeb.UnterminatedTailIgnored | open-sse/executors/adapta-web.ts:281-283 | a tail without line feed changes neither the frames nor the collected events |
| AdaptaWeb.ReadersAgreeExactly | open-sse/executors/adapta-web.ts:285-321 | for a parser to which padding does not matter: without a line that only one reader counts, streamed and collected text agree if and only if the first terminal event contributes what the lines behind it do; with such lines for one reader only, and no remainder of the other to make up for them, if and only if there are none. |
| AdaptaWeb.ReadersAgreeFromFirstDifference | open-sse/executors/adapta-web.ts:285-321 | for every feed, losses on both sides included, the texts agree if and only if what the two readers make of it from the first line that only one counts, or the first terminal one, agrees |
| AdaptaWeb.QuietReadersAgreeExactly | open-sse/executors/adapta-web.ts:465-492 | without a terminal event and without hidden padded deltas the texts agree if and only if every printed delta is empty; without printed deltas, if and only if no padded line hides a delta |
| AdaptaWeb.LossAndNoticeMayCancel | open-sse/executors/adapta-web.ts:310-316 | a printed delta that reads like the notice of the error behind it: the texts agree although one reader loses the line, so the remainders matter in the condition above |
| AdaptaWeb.LossesOnBothSidesMayCancel | open-sse/executors/adapta-web.ts:482-484 | a delta that only the collector counts and an equal one that only the transform counts: the texts agree |
| AdaptaWeb.TextBehindEndDisagrees | open-sse/executors/adapta-web.ts:317-320 | a delta behind the end event is collected and not streamed |
| AdaptaWeb.ReadersAgreeAcrossCuts | open-sse/executors/adapta-web.ts:465-492 | without a terminal event the two readers give the same text even when their feeds are cut differently |
| AdaptaWeb.PrintedDeltaDisagrees | open-sse/executors/adapta-web.ts:482-484 | a delta that is no string is printed by the collector and dropped by the transform |
| AdaptaWeb.PaddedPayloadDisagrees | open-sse/executors/adapta-web.ts:287-292 | a payload whose padding only `trim` accepts is streamed and not collected |
| AdaptaWeb.NothingYet | open-sse/executors/adapta-web.ts:276-327 | an empty feed shows role, stop and end marker, and is open for more |
| AdaptaWeb.DeltaIsStreamed | open-sse/executors/adapta-web.ts:299-306 | a `data: ` line, padded or not, with a string delta of another id than the placeholder adds one content frame with that delta in front of the stop, when nothing has ended the stream |
| AdaptaWeb.SilentLineShowsNothing | open-sse/executors/adapta-web.ts:286-309 | a line without the prefix, a blank or unparsable payload, a placeholder delta, a missing, empty or non-string delta and every other event type add no frame and leave the stream open |
| AdaptaWeb.ErrorIsShown | open-sse/executors/adapta-web.ts:310-316 | an error event adds one frame reading `[Erro: …]` behind two line feeds, with its own text or the default one, and ends the stream whatever follows |
| AdaptaWeb.ClosingEventEndsStream | open-sse/executors/adapta-web.ts:317-320 | a done event, an end event and the value null each show nothing and end the stream whatever follows |
| AdaptaWeb.LineIsCollected | open-sse/executors/adapta-web.ts:478-488 | what each line adds for the collector: the printed delta of a text event that is not the placeholder, and nothing else |
| LoginManager.Manager.constructor | electron/loginManager.js:36-46 | a new manager is idle |
| LoginManager.Manager.StartLogin | electron/loginManager.js:56-109 | a start is refused, changing nothing, while another login is active; otherwise it leaves the started state, or the failed one when opening the window throws |
| LoginManager.Manager.OpenLoginWindow | electron/loginManager.js:114-218 | opening arms the minimum-time timer and the overall timeout |
| LoginManager.Manager.OnNavigate | electron/loginManager.js:141-168 | a navigation only adds status events and the navigated flag |
| LoginHeaderCapture.CaptureConfiguredHeaders | electron/lib/loginHeaderCapture.js:3-15 | the loop over the configured names, with the lower-cased copy of the headers, computes the captured headers |
| LoginHeaderCapture.CaptureGuarantees | electron/lib/loginHeaderCapture.js:8-14 | a value held stays, only configured names are added, what is added is the trimmed, non-blank value of the last header of that name up to case, and every such offer for a name without value is taken |
| LoginHeaderCapture.CaptureChangesExactly | electron/lib/loginHeaderCapture.js:8-14 | a capture changes something if and only if a configured name without value is offered one |
| LoginManager.Manager.OnRequestHeaders | electron/loginManager.js:129-135 | the hook replaces the held headers by those captured under the names of the header sources, and touches nothing else |
| LoginManager.Manager.OnClosed | electron/loginManager.js:184-196 | closing the window settles an unfinished login as cancelled |
| LoginManager.Manager.OnTimer | electron/loginManager.js:199-217 | an armed timer starts the polling, polls, or settles the login by timing out; once completed it only disarms |
| LoginManager.Manager.OnCookies | electron/loginManager.js:241-324 | a cookie reply leads to a storage request, a check, or a new poll timer |
| LoginManager.Manager.OnStorage | electron/loginManager.js:281-307 | a storage reply is merged into the credentials and checked; a rejected one is checked without it |
| LoginManager.Manager.CheckCredentials | electron/loginManager.js:334-367 | the login completes exactly when all keys are found and some credential exists, else polls on |
| LoginManager.Manager.Cancel | electron/loginManager.js:387-398 | cancelling settles an active login and does nothing otherwise |
| LoginManager.Manager.Cleanup | electron/loginManager.js:403-425 | all three timers, the window and the captured headers are given up |
| LoginManager.StartEstablishes | electron/loginManager.js:80-107 | a started login is live, or settled when the window did not open |
| LoginManager.LiveStep | electron/loginManager.js:184-217 | every event of any kind leaves a live login live, with the overall timeout armed and one thing under way, or settles it |
| LoginManager.LateEventsChangeNothing | electron/loginManager.js:227-244 | once settled, no event touches the promise, the statuses, a timer or the window |
| LoginManager.LateHeadersChangeExactly | electron/loginManager.js:131-134 | once settled, the held headers change if and only if a request offers a value for a configured header that has none |
| LoginManager.HeldHeadersSucceed | electron/loginManager.js:246-317 | a login that needs only headers the manager holds already succeeds at its first poll |
| LoginManager.LateHeaderReachesNextLogin | electron/loginManager.js:131-134 | a new login is cancelled, a header arrives late, and the next login succeeds with it |
| LoginManager.SettlementIsFinal | electron/loginManager.js:343-367 | over any further run the outcome and the statuses stay those of the first settlement |
| LoginManager.LoginGuarantees | electron/loginManager.js:114-218 | at every point of every run: at most one settlement, exactly when completed; one terminal status that fits it; no timer armed afterwards and the overall timeout armed before; success only with every required key |
| LoginManager.NextLoginGuarantees | electron/loginManager.js:403-425 | once a login is settled and its replies have arrived the manager is idle, and the same holds of its next login |
| LoginManager.OverallTimeoutSettles | electron/loginManager.js:205-217 | the overall timeout settles every live login |
| LoginManager.SettlingStatusExactly | electron/loginManager.js:387-394 | of all events that settle a live login, exactly cancelling leaves a last status without provider id |
| LoginManager.LastStatusExactly | electron/loginManager.js:184-217 | over every run, the last status of a login that ended names its provider if and only if cancelling did not end it |
| LoginManager.CancelledStatusNamesNoProvider | electron/loginManager.js:387-394 | a new login that is cancelled at once: its status names no provider |
| LoginManager.NullExactlyOverRuns | electron/loginManager.js:276-286 | over every run of a login that succeeds, a credential is null if and only if the storage reply that settled the login held null for it |
| LoginManager.NullExactlyFromStorage | electron/loginManager.js:276-286 | in the settling step a credential is null exactly when that event is a storage reply with null for it |
| LoginManager.MissingTokenSucceeds | electron/loginManager.js:346-362 | a new manager's login that needs one storage item ends its first poll in success when the item is absent, with null for it |
| LoginManager.SuccessHoldsEveryKey | electron/loginManager.js:343-362 | over every run, a login that succeeds holds a value under the name of every cookie, storage and header source, and at least one value |
| LoginManager.CheckDecides | electron/loginManager.js:343-367 | a live login succeeds with exactly the merged credentials when they are not empty and hold every source's name, and otherwise stays unsettled with a poll timer armed |
| LoginManager.StorageReplyDecides | electron/loginManager.js:281-307 | a storage reply overrides what was gathered, and the merged credentials decide as above |
| LoginManager.CookieReplyDecides | electron/loginManager.js:241-324 | a cookie reply leads to a storage request holding what was gathered if and only if some source needs it and the window is there; else what was gathered decides; a rejected one polls on |
| LoginManager.CookieFound | electron/loginManager.js:251-260 | the value of a cookie source is that of the first cookie with its name whose domain contains the source's domain without leading dot |
| LoginManager.GatheredIs | electron/loginManager.js:247-260 | under a name the last cookie source with a matching cookie decides, and a captured header where there is none |
| LoginManager.StartShows | electron/loginManager.js:80-107 | a start shows starting and navigating and arms exactly the two timers, or shows an error and fails when the window does not open |
| LoginManager.TimersPoll | electron/loginManager.js:199-239 | the minimum-time timer starts the polling; each poll asks for the cookies, and each thirtieth says it is waiting |
| LoginManager.EndingsShow | electron/loginManager.js:184-217 | the status and the failure of closing, cancelling and timing out |
| LoginManager.NavigationShows | electron/loginManager.js:141-168 | a valid navigation is reported, and as a detected success from the second one on if it matches; an invalid one changes nothing |
| LoginManager.SettlingCleansUp | electron/loginManager.js:403-425 | whatever settles a login leaves no window, timer, active provider or captured header |
| FreeModelCatalog.DedupedSum | open-sse/config/freeModelCatalog.ts:80-95 | the loop computes the sum over distinct pools of the pool's maximum, plus the models without pool |
| FreeModelCatalog.ComputeTotals | open-sse/config/freeModelCatalog.ts:97-121 | the three totals and the two counts are those of the definition on the kept models |
| FreeModelCatalog.PoolMaxIs | open-sse/config/freeModelCatalog.ts:90-90 | a pool's amount bounds all its members and is one of them, or 0 |
| FreeModelCatalog.DedupedPermutation | open-sse/config/freeModelCatalog.ts:80-95 | the order of the models does not matter |
| FreeModelCatalog.TotalsPermutation | open-sse/config/freeModelCatalog.ts:97-121 | nor does it for any total or count |
| FreeModelCatalog.AddOneDeduped | open-sse/config/freeModelCatalog.ts:87-92 | one more model adds between nothing and its amount, and nothing when its pool already holds as much |
| FreeModelCatalog.DominatedMemberIsFree | open-sse/config/freeModelCatalog.ts:87-92 | a member dominated within its pool leaves the sum unchanged |
| FreeModelCatalog.DedupedAtMostSum | open-sse/config/freeModelCatalog.ts:78-95 | the deduplicated sum lies between 0 and the plain sum |
| FreeModelCatalog.FilterNeverRaises | open-sse/config/freeModelCatalog.ts:87-93 | leaving models out never raises the sum |
| FreeModelCatalog.TotalsAreOrdered | open-sse/config/freeModelCatalog.ts:116-117 | steady, steady with credits and first month are ordered |
| FreeModelCatalog.ExcludingNeverRaises | open-sse/config/freeModelCatalog.ts:98-121 | excluding models whose terms advise against them raises no total and no count |
| FreeModelCatalog.DedupedByModel | open-sse/config/freeModelCatalog.ts:80-95 | one more model adds its amount when it has no pool key or an empty one, and else what it exceeds the largest amount of its pool by |
| FreeModelCatalog.TotalsOfOne | open-sse/config/freeModelCatalog.ts:56-121 | for each kind of offer which totals one model counts for, and that an excluded one counts for none |
| AccountRotation.Rotation.PickAccount | open-sse/executors/accountRotation.ts:59-75 | the index returned is the first ready one going round from the pointer, else the pointer's, and the pointer moves just behind it; an empty list gives no account and turns the pointer into NaN, with which every later pick from a list fails if the readiness test throws for undefined, and gives no account otherwise |
| AccountRotation.Rotation.PickRounds | open-sse/executors/accountRotation.ts:59-75 | the indices of a series of picks are those of the ring, and an account ready throughout N picks on N accounts is among them |
| AccountRotation.MarkCooldown | open-sse/executors/accountRotation.ts:77-84 | only this account changes: one more failure, and a cooldown of the capped backoff plus jitter |
| AccountRotation.MarkSuccess | open-sse/executors/accountRotation.ts:86-88 | only this account's failure count changes, to 0; its cooldown stays |
| AccountRotation.RingModulo | open-sse/executors/accountRotation.ts:65-73 | the remainders the loop computes walk once round the ring |
| AccountRotation.PickIsFirstReady | open-sse/executors/accountRotation.ts:64-71 | a ready account is returned whenever one exists, and none nearer going round is ready |
| AccountRotation.PassingBringsCloser | open-sse/executors/accountRotation.ts:64-71 | a pick that passes over a ready account shortens the pointer's way to it |
| AccountRotation.ReadyAccountIsPicked | open-sse/executors/accountRotation.ts:50-75 | an account ready through N picks on N accounts is picked, however the readiness of the others changes |
| AccountRotation.BackoffMonotoneAndCapped | open-sse/executors/accountRotation.ts:79-82 | the backoff never falls with more failures, grows until the cap, and stays between base and cap |
| AccountRotation.CounterCountsFailures | open-sse/executors/accountRotation.ts:77-88 | over every history the counter is the number of failures since the last success |
| AccountRotation.CooldownOfLastFailure | open-sse/executors/accountRotation.ts:77-88 | the cooldown ends at the last failure plus its backoff and jitter, whatever successes follow |
| AccountRotation.ReadyAgainInTime | open-sse/executors/accountRotation.ts:45-50 | after every history an account is ready once cap and jitter have passed since its last failure, and not before the base has |
| AccountRotation.BackoffDoubles | open-sse/executors/accountRotation.ts:79-81 | 5 seconds after the first failure, twice as long after each further one, at most 60 |
| AccountRotation.FailureWaits | open-sse/executors/accountRotation.ts:77-88 | a failed account is ready again exactly when backoff and jitter are over, and a success keeps its cooldown |
| EnvBootstrap.ParseEnvFile | electron/main.js:679-690 | the loop yields the entries of the well-formed lines, a later value of a key replacing the earlier in place; a missing file yields none |
| EnvBootstrap.ParseWellFormed | electron/main.js:682-688 | whatever the text, keys are trimmed, non-empty, distinct, without `=` and start no comment, and values are trimmed |
| EnvBootstrap.EntryLineReadsBack | electron/main.js:735-735 | the line written for a well-formed entry reads as that entry |
| EnvBootstrap.ParseOfPrint | electron/main.js:732-738 | reading what the writer wrote gives exactly its entries, in order |
| EnvBootstrap.RoundTrip | electron/main.js:679-690 | parse(print(parse(text))) = parse(text) for every text |
| EnvBootstrap.DataDir.Start | electron/main.js:692-743 | one start reads, fills in the missing secrets, and writes only when it generated one; a refused start writes nothing |
| EnvBootstrap.DataDir.GenerateMissing | electron/main.js:700-727 | exactly the secrets whose effective value is empty are generated; existing encrypted data refuses a new storage key |
| EnvBootstrap.DataDir.Write | electron/main.js:728-743 | what was written is what the next start reads |
| EnvBootstrap.SecuredLookup | electron/main.js:700-727 | the value of every key after a start |
| EnvBootstrap.PersistedKeptExactly | electron/main.js:697-727 | a start keeps every non-empty persisted value, except a secret masked by an empty setting and the key version when a storage key is generated, and those get a fresh value |
| EnvBootstrap.EmptyAfterStart | electron/main.js:697-727 | after a start a secret is effectively empty if and only if it is masked |
| EnvBootstrap.SecondStartGeneratesMasked | electron/main.js:692-743 | a second start generates exactly the masked secrets, so nothing when none is masked |
| EnvBootstrap.MaskedSecretIsLost | electron/main.js:697-704 | a persisted secret under an environment that sets it to empty is replaced by the first start and again by the second |
| EnvBootstrap.ParseLineIs | electron/main.js:683-687 | a line is the entry (k, v) if and only if its trimmed text is a text without `=` that is not empty and starts no comment, then `=`, then any text, and these trimmed are k and v |
| EnvBootstrap.LastLineDecides | electron/main.js:679-690 | for every text and key: the value read is that of the last line that is an entry for the key, and there is none if and only if no line is |
| EnvBootstrap.FirstLinePlaces | electron/main.js:681-688 | the keys read stand in the order of the lines that first name them |
| EnvBootstrap.PrintIs | electron/main.js:732-738 | the written file is the header, a blank line, and `key=value` with a line feed for each entry in order |
| EnvBootstrap.BootstrapDecides | electron/main.js:697-727 | for all files and environments: a start is refused if and only if the storage key is left empty while encrypted data exists; it generates exactly the secrets left empty and sets exactly these keys, and with the storage key its version |
| ToolCloaking.StripLookup | open-sse/config/toolCloaking.ts:15-30 | stripping commutes with lookup along every path that avoids the key, and no path through the key finds anything |
| ToolCloaking.StripIdempotent | open-sse/config/toolCloaking.ts:15-30 | stripping twice equals stripping once |
| ToolCloaking.StripAtPath | open-sse/config/toolCloaking.ts:46-84 | below the parameters everything is stripped; on every other path scalars, array lengths and lists of field names stay |
| ToolCloaking.StripAtIdempotent | open-sse/config/toolCloaking.ts:39-85 | sanitizing twice equals sanitizing once |
| ToolCloaking.SanitizeToolPayload | open-sse/config/toolCloaking.ts:39-85 | the payload is the body with the schemas stripped in place, whichever of its changed flags were set |
| ToolCloaking.SanitizeTools | open-sse/config/toolCloaking.ts:46-76 | tools keep their count and order, and nothing changes when no flag is set |
| ToolCloaking.StripIs | open-sse/config/toolCloaking.ts:15-30 | a stripped scalar stays, an array keeps its length, an object its field names in order but for `enumDescriptions` |
| ToolCloaking.BelowParameters | open-sse/config/toolCloaking.ts:39-85 | below `request.tools[i].functionDeclarations[j].parameters` a value is found afterwards if and only if it was there and no step is `enumDescriptions`, and it is the same but for that field |
| ScopedModelIds.GetAllModels | open-sse/config/embeddingRegistry.ts:585-603 | the list holds every provider's models in order under their scoped ids |
| ScopedModelIds.NormalizeExactly | open-sse/config/embeddingRegistry.ts:444-459 | normalizing undoes scoping for a listed model if and only if it is not shadowed |
| ScopedModelIds.EmbeddingRoundTrip | open-sse/config/embeddingRegistry.ts:472-523 | for slash-free provider ids: a registered pair whose scoped id no model alias rewrites parses back if and only if its provider is no alias key and does not list the model with and without its prefix, or is an alias key without registered target and the model id lacks the prefix; one whose scoped id is rewritten, if and only if the new text goes to the same provider and what follows stands for the same model |
| ScopedModelIds.TextParsesToExactly | open-sse/config/embeddingRegistry.ts:472-523 | a text parses to a registered pair if and only if, with model aliases applied, it goes to that provider and its rest stands for that model, or is the bare id of a model that the provider lists first |
| ScopedModelIds.RewrittenWithinProviderExactly | open-sse/config/embeddingRegistry.ts:428-455 | a scoped id rewritten within a provider that is no alias key parses back if and only if the new text carries the prefix twice and is the scoped prefixed model, or the model with two prefixes, neither prefixed form being listed |
| ScopedModelIds.RerankRoundTrip | open-sse/config/rerankRegistry.ts:142-203 | for slash-free provider ids: a registered pair parses back from its scoped id if and only if its provider is no alias key and does not list the model with and without its prefix, or is an alias key without registered target and the model id lacks the prefix |
| ScopedModelIds.ShadowedModelIsLost | open-sse/config/embeddingRegistry.ts:444-455 | a provider that lists a model with and without its prefix: the prefixed one reads back as the other |
| ScopedModelIds.AliasedProviderDiverts | open-sse/config/rerankRegistry.ts:138-183 | a provider whose alias leads to a registered one: its model does not read back through either parser |
| ScopedModelIds.AliasedModelIsLost | open-sse/config/embeddingRegistry.ts:428-438 | a model whose name is a model alias: its catalogue id reads back as the alias's target |
| ScopedModelIds.CatalogueReadsBackExactly | open-sse/config/rerankRegistry.ts:208-220 | with distinct, non-empty, slash-free provider ids every catalogue id reads back through either parser under exactly that parser's condition, also with slashes or the provider prefix in the model id |
| ScopedModelIds.BareModelGoesToFirstOwner | open-sse/config/embeddingRegistry.ts:515-522 | a bare id goes to the first provider that lists it in both parsers |
| ScopedModelIds.FirstAliasDecides | open-sse/config/embeddingRegistry.ts:428-438 | for every text and every first model alias that applies to it: an equal one is parsed as its target, a slash-free one behind a slash is replaced by it, and no further alias is tried |
| ScopedModelIds.RegisteredHeadParses | open-sse/config/embeddingRegistry.ts:477-488 | a text whose first segment leads to a registered provider goes there in both parsers, with the model its listings, the prefix they use, or the text itself call for |
| ScopedModelIds.PrefixProviderParses | open-sse/config/embeddingRegistry.ts:490-498 | otherwise it goes to the first registered provider whose id and a slash begin it, in both parsers |
| ScopedModelIds.UnregisteredHeadParses | open-sse/config/embeddingRegistry.ts:499-512 | otherwise to the first dynamic provider whose id and a slash begin it, and else its first segment is the provider; the rerank parser looks for the whole text |
| ScopedModelIds.HeadlessTextParses | open-sse/config/embeddingRegistry.ts:515-522 | a text without first segment goes whole to the first provider that lists it, and to none when none does |
| ScopedModelIds.NoTextParses | open-sse/config/embeddingRegistry.ts:476-476 | no text and the empty text have neither provider nor model |
| ScopedModelIds.CatalogueIs | open-sse/config/embeddingRegistry.ts:585-603 | the catalogue grows, provider by provider and model by model, by the id with the provider in front once |
| RegistryUtils.RegistryModelIndex.GetIndex | open-sse/config/registryUtils.ts:31-46 | built or cached, the index answers every id as the first-match scan does, and once built it stays |
| RegistryUtils.RegistryModelIndex.ParseModel | open-sse/config/registryUtils.ts:52-76 | parsing through the index equals parsing by scan, on every call |
| RegistryUtils.FirstOwnerSnoc | open-sse/config/registryUtils.ts:38-42 | a later provider answers only ids that no earlier one lists |
| RegistryUtils.GetAllModels | open-sse/config/registryUtils.ts:82-107 | the list holds every model of every provider under id and alias, in order |
| RegistryUtils.ScopedGoesToFirstClaim | open-sse/config/registryUtils.ts:58-66 | a scoped string goes to the first provider that claims its prefix as id or alias |
| RegistryUtils.ListingParsesBackExactly | open-sse/config/registryUtils.ts:52-66 | a scoped string parses to a provider and model if and only if that provider is the first to claim the prefix |
| RegistryUtils.CatalogueParsesBack | open-sse/config/registryUtils.ts:82-107 | with slash-free and distinct ids and aliases every listed id parses back to its provider and model |
| RegistryUtils.ClaimedParses | open-sse/config/registryUtils.ts:58-66 | the first provider whose id, or else non-empty alias, and a slash begin the string gets what follows, slashes or not |
| RegistryUtils.UnclaimedParses | open-sse/config/registryUtils.ts:68-76 | any other string goes whole to the first provider that lists it, unless that has the empty id |
| RegistryUtils.CatalogueIs | open-sse/config/registryUtils.ts:82-107 | the catalogue grows, provider by provider and model by model, by one listing under the id and one under the alias, each when not empty |
| CliFingerprints.OrderFields | open-sse/config/cliFingerprints.ts:206-226 | the loops compute the listed entries in list order followed by the rest in their own |
| CliFingerprints.OrderHeaders | open-sse/config/cliFingerprints.ts:232-262 | the loops compute the reordering of the case-insensitive lookup |
| CliFingerprints.OrderedLookup | open-sse/config/cliFingerprints.ts:206-226 | reordering neither loses nor invents an entry |
| CliFingerprints.OrderedByRank | open-sse/config/cliFingerprints.ts:213-224 | listed names come first, in list order |
| CliFingerprints.OrderedIdempotent | open-sse/config/cliFingerprints.ts:206-226 | unlisted entries keep their order, and reordering again changes nothing |
| CliFingerprints.FoldedLookup | open-sse/config/cliFingerprints.ts:242-246 | the lookup holds one entry per case-insensitive name, the last variant |
| CliFingerprints.OneHeaderPerName | open-sse/config/cliFingerprints.ts:232-262 | with a non-empty order one header per case-insensitive name, which is the last variant, and none missing; an empty order leaves the headers as they are, case variants included |
| CliFingerprints.HeadersByRank | open-sse/config/cliFingerprints.ts:248-255 | listed headers come first, in fingerprint order |
| CliFingerprints.HeadersIdempotent | open-sse/config/cliFingerprints.ts:232-262 | ordering headers twice equals ordering once |
| CliFingerprints.OthersKeepOrder | open-sse/config/cliFingerprints.ts:219-224 | of two entries that are not listed the one in front stood in front before |
| CliFingerprints.OtherHeadersKeepOrder | open-sse/config/cliFingerprints.ts:242-262 | headers that are not listed stand in the order in which their names first appeared, in any case |
| CodexIdentity.BuildersPrintUuids | open-sse/config/codexIdentity.ts:41-59 | for every digest both builders print an id the pattern accepts, and they differ at most in the variant digit |
| CodexIdentity.StableKeepsDigest | open-sse/config/codexIdentity.ts:47-59 | every digit but the version and variant digits is the digest's |
| CodexIdentity.VersionedDigits | open-sse/config/codexIdentity.ts:50-51 | the byte writes set version 4 and an RFC 4122 variant (sections 4.1.1 and 4.1.3) and change nothing else |
| CodexIdentity.DashedMatches | open-sse/config/codexIdentity.ts:8-8 | 32 hexadecimal digits with version 4 and that variant, dashed, match the pattern |
| CodexIdentity.InstallationIdIsFixed | open-sse/config/codexIdentity.ts:116-134 | every installation id matches the pattern, and fed back as the explicit id it is kept whatever else changes |
| CodexIdentity.IdentityIds | open-sse/config/codexIdentity.ts:170-208 | outside device mode installation, session and thread ids match the pattern; in full mode thread and session are one |
| CodexIdentity.MergeTurnMetadata | open-sse/config/codexIdentity.ts:298-331 | the text is that of the parsed record, or a fresh one, with the identity's fields written in order |
| CodexIdentity.MergedReadsBack | open-sse/config/codexIdentity.ts:298-331 | the merged text parses back to the merged record |
| CodexIdentity.MergedCarries | open-sse/config/codexIdentity.ts:317-329 | the merged record carries the identity's fields and keeps every other field it had |
| CodexIdentity.MergeTwice | open-sse/config/codexIdentity.ts:298-331 | merging again changes nothing |
| CodexIdentity.Headers.ApplyIdentity | open-sse/config/codexIdentity.ts:344-372 | the header bag becomes the stamped one; without identity it stays |
| CodexIdentity.Body.ApplyClientMetadata | open-sse/config/codexIdentity.ts:374-404 | the body's client metadata becomes the stamped one; without identity the body stays |
| CodexIdentity.StampedGet | open-sse/config/codexIdentity.ts:344-404 | the value of every key of a stamped carrier: the identity's, the merged turn metadata, or what it was |
| CodexIdentity.HeadersTwice | open-sse/config/codexIdentity.ts:344-372 | applying the identity to the headers again changes nothing |
| CodexIdentity.BodyTwice | open-sse/config/codexIdentity.ts:374-404 | applying it to the body again changes nothing |
| CodexIdentity.ClientMetadataOf | open-sse/config/codexIdentity.ts:380-403 | only the client metadata of a body changes |
| CodexIdentity.InstallationEverywhere | open-sse/config/codexIdentity.ts:344-404 | in every mode header and body metadata name the identity's installation, and so does the turn metadata of either wherever there is some |
| CodexIdentity.SessionEverywhere | open-sse/config/codexIdentity.ts:344-404 | outside device mode they name its session |
| CodexIdentity.ThreadEverywhere | open-sse/config/codexIdentity.ts:344-404 | they name its thread |
| CodexIdentity.WindowEverywhere | open-sse/config/codexIdentity.ts:344-404 | they name its window |
| CodexIdentity.BoundExactly | open-sse/config/codexIdentity.ts:439-456 | outside device mode a body is bound to its turn afterwards if and only if it had turn metadata |
| CodexIdentity.BoundInDeviceModeExactly | open-sse/config/codexIdentity.ts:439-456 | in device mode a binding survives if and only if it was there as text |
| CodexIdentity.ObjectMetadataIsDropped | open-sse/config/codexIdentity.ts:305-315 | a bound body that loses its binding |
| CodexIdentity.SeedIsUnique | open-sse/config/codexIdentity.ts:61-73 | every account has exactly one seed: the first non-blank text of account key, connection id, workspace id, account id and email, trimmed, or `default` without one |
| CodexIdentity.SeedOfSession | open-sse/config/codexIdentity.ts:136-208 | the session id is the stable id of that seed; the thread id that of the seed and the client's session id, or the session id in full mode or without a client id; the window id is the thread id and `:0` |
| CodexIdentity.SeedOfInstallation | open-sse/config/codexIdentity.ts:116-134 | the explicit id wins when it has the pattern, then the first of workspace id, account id and email in the legacy layout, even over the account key, then the seed |
| CodexIdentity.DeviceIdentity | open-sse/config/codexIdentity.ts:176-191 | off has no identity, device mode one with the installation alone |
| CodexIdentity.PatternByPlace | open-sse/config/codexIdentity.ts:8-8 | which characters the pattern accepts at each place |
| CodexIdentity.HexIs | open-sse/config/codexIdentity.ts:52-58 | each byte prints as two lower-case digits, the high half first |
| CodexIdentity.VariantDigits | open-sse/config/codexIdentity.ts:41-51 | the variant digit is `a` in the legacy layout and keeps the digest's two lower bits in the other |
| CodexIdentity.FreshTurnIs | open-sse/config/codexIdentity.ts:298-331 | turn metadata that is no text of a record becomes a fresh record of eight fields, or of the installation alone in device mode |
| CodexIdentity.ExtendedTurnIs | open-sse/config/codexIdentity.ts:303-329 | turn metadata that is one gets the identity's fields by name and keeps every other |
| CodexIdentity.TurnTextIs | open-sse/config/codexIdentity.ts:351-371 | where the merged text is written: always as a header outside device mode, else only over what is there |
| CodexIdentity.HeadersAre | open-sse/config/codexIdentity.ts:350-371 | the value of every session header by name, and that no other header changes |
| CodexIdentity.DeviceHeadersAre | open-sse/config/codexIdentity.ts:350-361 | in device mode the installation header alone, beside the turn metadata, is written |
| CodexIdentity.BodyIs | open-sse/config/codexIdentity.ts:380-403 | the body keeps everything but its client metadata, which is an object afterwards |
| CodexIdentity.MetadataIs | open-sse/config/codexIdentity.ts:386-393 | the value of every field of the client metadata by name, and that no other field changes |
| CodexIdentity.BindingIs | open-sse/config/codexIdentity.ts:439-456 | a body is bound if and only if its turn metadata, as record or as text of one, has a non-blank thread id and a non-blank turn id |
| AnthropicHeaders.MergeClientAnthropicBeta | open-sse/config/anthropicHeaders.ts:84-115 | the loop with its two sets computes the merged list |
| AnthropicHeaders.AllowSet | open-sse/config/anthropicHeaders.ts:96-103 | the allow-set holds exactly the allowed lower-case tokens the model permits |
| AnthropicHeaders.TokensOfJoin | open-sse/config/anthropicHeaders.ts:90-94 | splitting, trimming and filtering undo the join on every token list, the empty one included |
| AnthropicHeaders.MergeGuarantees | open-sse/config/anthropicHeaders.ts:84-115 | base tokens are a prefix; what follows is an allowed client token and repeats none before it up to case |
| AnthropicHeaders.AllowedTokensArrive | open-sse/config/anthropicHeaders.ts:104-113 | no allowed client token is dropped |
| AnthropicHeaders.UnsupportedModelGets1mNever | open-sse/config/anthropicHeaders.ts:98-102 | the long-context beta is never appended for a supplied model without support |
| AnthropicHeaders.MergeIdempotent | open-sse/config/anthropicHeaders.ts:84-115 | merge(merge(b, c), c) = merge(b, c) |
| AnthropicHeaders.TokensAre | open-sse/config/anthropicHeaders.ts:90-94 | the tokens of a comma list are its trimmed pieces in order without the blank ones |
| AnthropicHeaders.MergedAre | open-sse/config/anthropicHeaders.ts:84-115 | the merged header is the base tokens and then exactly the client tokens that are on the allow-list up to case and are not the long-context beta for a supplied model without support |
| AnthropicHeaders.AppendedKeepsOrder | open-sse/config/anthropicHeaders.ts:104-113 | appended tokens stand in the client's order, each in the spelling the client used first |
| ContextEditing.RequestBody.ApplyContextEditing | open-sse/config/contextEditing.ts:48-82 | the body is edited when enabled and untouched otherwise |
| ContextEditing.SortPartitions | open-sse/config/contextEditing.ts:74-78 | the stable sort is the partition into thinking edits and the rest, each in its own order |
| ContextEditing.EditedIs | open-sse/config/contextEditing.ts:66-79 | without tool-use edit: thinking edits, other edits, one new tool-use edit, and all the caller's edits as a multiset |
| ContextEditing.AppliedIdempotent | open-sse/config/contextEditing.ts:48-82 | applying twice equals applying once |
| ContextEditing.AppliedEdits | open-sse/config/contextEditing.ts:54-81 | the edit list of the body becomes the edited one, and holds a tool-use edit afterwards, if and only if its context management is no array |
| ContextEditing.AppliedElsewhere | open-sse/config/contextEditing.ts:54-81 | nothing else in the body or its context management changes |
| ContextEditing.ThinkingFirstExactly | open-sse/config/contextEditing.ts:66-79 | thinking edits precede tool-use edits if and only if none of the latter was there or the caller kept that order |
| ContextEditing.WrongOrderStays | open-sse/config/contextEditing.ts:64-66 | a tool-use edit listed before a thinking edit stays there |
| ContextEditing.FreshManagement | open-sse/config/contextEditing.ts:66-81 | a body without context management gets one with a single tool-use edit, trigger and keep in full |
| ContextEditing.EditedByType | open-sse/config/contextEditing.ts:62-79 | which edits count as thinking and as tool use, by their type |
| ContextEditing.MalformedCountsAsNone | open-sse/config/contextEditing.ts:54-61 | a context management that is no record, and edits that are no array, count as none |
| ProviderModels.GetGlobalModel | open-sse/config/providerModels.ts:107-146 | the three loops return, of all entries the deciding stage looks at, the first of the best, in the order of the providers and of each list |
| ProviderModels.LongestPrefix | open-sse/config/providerModels.ts:129-145 | the nested loop finds an entry with the longest matching id, none of these richer, and better than every earlier one |
| ProviderModels.RichestFirst | open-sse/config/providerModels.ts:114-116 | the stable sort by falling richness puts the richest entry that stands first in front |
| ProviderModels.FirstSeenWins | open-sse/config/providerModels.ts:107-146 | nothing a lookup looks at is better than what it finds, and everything of earlier providers, and earlier in the same list, is worse; so on a full tie the earliest provider wins |
| ProviderModels.LookupFinds | open-sse/config/providerModels.ts:107-146 | a listed id finds itself; any other the longest listed prefix of its basename; nothing only when there is none |
| ProviderModels.LookupIsRichest | open-sse/config/providerModels.ts:94-146 | among the entries listed first under the id found, it is the richest |
| ProviderModels.LookupIsRichestOfAll | open-sse/config/providerModels.ts:94-146 | when no provider repeats an id it is the richest of all with that id |
| ProviderModels.RichestExactly | open-sse/config/providerModels.ts:107-146 | what is found is the richest of all with its id if and only if no repeat hides a richer one, or neither the id nor its basename is listed |
| ProviderModels.RepeatIsPassedOver | open-sse/config/providerModels.ts:110-113 | a richer second entry of one provider is passed over |
| ProviderModels.RepeatIsPassedOverByBasename | open-sse/config/providerModels.ts:119-127 | also when the id is only the basename of what was asked for |
| ProviderModels.LookupIgnoresOrder | open-sse/config/providerModels.ts:107-146 | the order of the providers changes neither id nor richness, and not the entry unless there is a full tie |
| ProviderModels.ProviderLookupFinds | open-sse/config/providerModels.ts:148-152 | a provider's own entry comes first, and a listed id is never answered with another |
| ProviderModels.SplitEffortSuffix | open-sse/config/providerModels.ts:259-271 | the loop splits at the first level that ends the id |
| ProviderModels.SplitExactly | open-sse/config/providerModels.ts:259-271 | the result is a base and a level if and only if the id is that base, a dash and that level in any letter case, whatever the order of the levels |
| ProviderModels.EffortRoundTrip | open-sse/config/providerModels.ts:244-271 | base and level are recovered from base + "-" + level for every base and level |
| ProviderModels.RichnessByField | open-sse/config/providerModels.ts:94-105 | each of the eight fields adds its own weight, whatever else an entry defines, and an entry with none scores 0 |
| ProviderModels.RicherOfTwo | open-sse/config/providerModels.ts:107-116 | of two providers' entries for an id the earlier one is found unless the later one weighs more |
| ProviderModels.BasenameIs | open-sse/config/providerModels.ts:118-119 | the basename is what follows the last slash, and the whole id when nothing does |
| ProviderModels.OwnEntryAnswers | open-sse/config/providerModels.ts:148-152 | a provider's first entry with the id answers, and without one the search of all providers |
| ProviderModels.EffortExactly | open-sse/config/providerModels.ts:244-271 | base and level are split off if and only if the id is the base, a dash and one of the five levels letter by letter in either case |
| ServerReadiness.WaitForServer | electron/lib/serverReadiness.js:14-56 | returns within the budget by the clock and less than a millisecond late; true if and only if the last probe brought an ok response in its window and no earlier one did; false only when the budget is spent; a server that is up early enough for one window, one pause and its reply time is found; for every poll interval |
| ServerReadiness.Race | electron/lib/serverReadiness.js:32-48 | a probe succeeds exactly when it settles ok within its window, and the wait ends with it or with the window |
| ServerReadiness.Pause | electron/lib/serverReadiness.js:50-52 | the sleep stays within the budget and moves the clock on |
| ServerReadiness.ProbesAreBounded | electron/lib/serverReadiness.js:29-53 | at most timeout / interval + 1 probes are sent |
| ServerReadiness.FailureMeansUnhealthy | electron/lib/serverReadiness.js:29-56 | a spent budget rules out every server that from some time on answers each probe ok within a reply time no longer than the longest window, provided that time plus one window and one pause still leaves the reply time |
| ServerReadiness.StartsApart | electron/lib/serverReadiness.js:29-53 | probes start at least the poll interval apart and at most one request timeout more, each of them at least 1 |
| ServerReadiness.WindowsFit | electron/lib/serverReadiness.js:29-40 | every probe starts within the budget and is waited for as long as request timeout and budget allow, at least 1 |
| AudioRegistry.FindAlternate | open-sse/config/audioRegistry.ts:743-760 | the search returns the first offer, candidate by candidate in registry order |
| AudioRegistry.ListAlternates | open-sse/config/audioRegistry.ts:763-782 | the list holds all offers, each printed once |
| AudioRegistry.AlternatesAre | open-sse/config/audioRegistry.ts:743-760 | an offer is a non-empty candidate listed by a provider other than the failed one |
| AudioRegistry.SearchesAgree | open-sse/config/audioRegistry.ts:743-782 | the search finds nothing if and only if the list is empty, and otherwise the head of the list |
| AudioRegistry.PrintNamesOneMatch | open-sse/config/audioRegistry.ts:775-777 | with slash-free provider ids a listed id names one provider and model |
| AudioRegistry.FirstMatch | open-sse/config/audioRegistry.ts:743-760 | the match found is the first candidate any other provider lists, with the first such provider |

## Left out

- UTF-8 decoding and JSON text: chunks are decoded characters, and parsing is a parameter; `CodexIdentity.Lawful` says what is required of it.
- The `id`, `created` and `model` fields of a streamed chunk, its text encoding, and a consumer that cancels the stream.
- AdaptaWeb: the tool-aware result and the session cache around the collector.
- LoginManager: replies of one login that arrive during a later one (both share one flag), listeners that throw, and the poll limit `maxPolls`, which the code computes and never uses.
- The Electron window, cookie store and page scripts: their replies are arbitrary events.
- JavaScript object quirks: integer-like keys come first, `__proto__` and inherited names; objects here are insertion-ordered lists of distinct keys.
- FreeModelCatalog.ComputeTotals: boosts, uncapped providers, the sorted model list and the headline text, which are direct projections.
- EnvBootstrap: choice of the data directory and of the preferred file, and the bootstrapped flag passed to the server process.
- ScopedModelIds: the dimension-conflict check.
- RegistryUtils.GetAllModels: the name of a model and the extra fields merged into a listing, which are copied along.
- RegistryUtils: a registry that changes after its index was cached.
- ToolCloaking: the other cloaking functions of the file.
- CliFingerprints: the choice of fingerprint and the user agent.
- CodexIdentity: reading the mode and the client session id from their sources, which are parameters, and the original-identity headers of mode off.
- AnthropicHeaders: collapsing the case variants of the two Anthropic headers.
- ContextEditing: a context_management that is an array stays as it is, since a field set on an array is no part of its JSON; the telemetry sums are not modelled.
- ProviderModels: letters outside ASCII keep their case in `Lower`. The only one whose lower case holds a letter of a level is the dotted capital I (U+0130), which gives an i and a combining dot above; the dot stands in no level, so no such text ends in one.
- ServerReadiness: that the request timer is cleared holds by construction of `Race`.
- ServerReadiness: timers are those of Node.js, where a delay below 1 counts as 1; delays of 2^31 ms and more, which Node.js cuts to 1 too, a custom sleep function, and a clock that is set back are left out.
- AudioRegistry: the candidate list itself, and the catalogue, whose parser does not restore a provider prefix inside a model id.
- HTTP, token exchange, windows, tray, updates, startup order, and the literal provider, model and price tables.
