# Realitify in Dafny

A model, in Dafny 4.11, of the parts of a Czech real-estate monitor that carry state, concurrency or translation
obligations, with proofs of what they promise. Every state machine is modelled as steps on values; where the program
updates state in place there is also a class whose methods are proved to take exactly those steps, and where it loops
there is a method proved against the function it computes.

| Modules | What they model |
|---|---|
| AdminOAuth, AdminOAuthInvariant, AdminOAuthRuns, AdminOAuthTokens, AdminOAuthCodes, AdminOAuthClients, AdminOAuthServer, AdminOAuthExample | The admin OAuth 2.1 server: registration, consent, PKCE code exchange, refresh rotation with reuse detection, revocation. Each locked section is one step; requests with several sections interleave freely. |
| StaleCache, StaleCacheRuns, StaleCacheServing | The threaded stale-while-revalidate cache with its busy set and key locks. |
| LiveShare, LiveShareReuse | The asyncio single-flight cache under any order of calls, task ends and callbacks. |
| RateLimit | The two sliding-window limiters, one over a deque, one over a list. |
| FilterLists, FilterBridge, FilterBridgeLaws, FilterMeaning | The filter translator between Sreality, Bezrealitky and iDNES, over an algebra of deduplicated token lists; FilterMeaning says what the tokens mean by the vocabularies and labels of the portals. |
| FormEncoding, UrlSplit, Calendar, Decimals, Texts, BezrealitkyUrl, BezrealitkyQuery, IdnesUrl, IdnesMarks, IdnesQuery | The URL printer and parser pairs of Bezrealitky and iDNES; IdnesMarks for localities with a question mark or number sign, the Query modules for what a URL says under the portals' own names. |
| CatalogSnap | The catalogue snapshot kept by watermark deltas while the live table grows. |
| AgentClaims, AgentClaimsExact | The user-claimed agent registration. |
| StripTags, Pagination | The linear tag stripper and the pagination crawls. |
| Cms, CmsSaving | Slug allocation, saving, deleting and due publication of articles. |
| EnvFile, EnvBreaks, EnvPlaces | The merge of settings into the `.env` file; EnvBreaks for settings with line breaks, EnvPlaces for where they stand. |
| CatalogMatch, CatalogExtra, CatalogMeaning, CatalogWords | The notification filter with its further filters, and portal-restricted monitors. |
| Seqs | Sequence vocabulary. |

Assumptions, all visible as parameters or preconditions: hashing is injective and drawn secrets are new; the clock of
a run does not go back; whether a user is an admin may change at any time; a listing is inserted with a stamp no earlier
than those before it, keeps its identity and first sighting, and is not deleted; Unicode folding (slugs, case,
localities) is a parameter of which only what is written in the contracts is used.

Where the code does less than its documentation or than one would expect, the model follows the code:

- docs/admin-mcp-oauth.md says that presenting an already rotated refresh token revokes the whole grant. The code keeps
  one previous hash, so only the token rotated away last does (AdminOAuthRuns.ReuseRevokesExactly, with a run in
  AdminOAuthExample.ReuseRevokesNothing).
- A refresh thread of the stale cache that cannot be started leaves its key busy for good
  (StaleCacheRuns.BusyExactlyWhileRefreshing, OrphanExample).
- A page that lists an id twice keeps both copies in fetch_all, unlike in fetch_pages (Pagination.DuplicatesExactly).
- A snapshot built from an empty table is not extended by deltas (CatalogSnap.CoverageAfterDelta, EmptyBuildExample),
  and a listing that is withdrawn without being touched is not flagged by them (CatalogSnap.DeltaIsExact).
- Above 20000 keys the rate limiter forgets all stamps, and then its limit fails (RateLimit.BoundHoldsExactly).
- Some edits of a filter that look like widenings lose listings: adding the first recognised offer, clearing sizes or
  dispositions beside the other list, clearing a choice that is ticked among the amenities as well
  (CatalogMatch.WideningKeepsMatchesExactly says which, for all such edits).
- A filter on a numbered district of Prague also takes listings of districts whose number begins with its own, so Praha 1
  takes Praha 10 (CatalogMeaning.PragueNumbersAskExactly, PragueTenIsTakenForOne).
- The e-mail hint of a claim is cut to 254 characters, so a longer e-mail cannot approve its own claim
  (AgentClaims.LongEmailExample).
- Trailing white space of the last line of `.env` is lost, which can show at the next write of the same settings only,
  and a setting that runs over several lines makes the file longer at every write (EnvFile.ReadsBackExactly,
  EnvBreaks.WritingTwiceExactly).
- A date before 1970 does not survive a Bezrealitky URL, nor does a text that holds an escape
  (BezrealitkyUrl.BuildAfterParseIsStableExactly).
- An iDNES locality does not come back when it is an OSM id, a name of the country, the text `s`, or holds a slash, a
  comma, a question mark or a number sign (IdnesUrl.LocalitySurvivesExactly). Behind a number sign all other parameters
  are lost too, behind a question mark the first one (IdnesMarks.ParseOfBuildIsCanonicalExactly,
  IdnesMarks.QuestionMarkLosesFirst). Only the first of several offers is written to an iDNES URL.

Notation: runs are a sequence of states `ws` and a sequence of events `es`, with `ws[i + 1]` the result of `es[i]` in
`ws[i]`; an invariant `Inv` is kept by every step; fields of a state that only record history are said to be so.

## Model

| member | source | states |
|---|---|---|
| AdminOAuthRuns.RefreshOutcome | app/admin_oauth.py:300-326 | The whole effect of presenting any text as a refresh token, by its place in the issue history: the current one rotates its grant, that is, the two new tokens become its current ones and it itself the predecessor while owner, client, dates and every other row stay (or deletes it when the owner is no admin), the one rotated away last deletes the grant whatever the other parameters are, anything else is refused and changes nothing (section 6 of RFC 6749, section 4.14.2 of RFC 9700). |
| AdminOAuthRuns.RefreshTokenMintsOnce | app/admin_oauth.py:300-326 | In every run, under every interleaving of locked sections, a refresh token that once produced tokens is refused ever after. |
| AdminOAuthRuns.ReuseEndsFamily | app/admin_oauth.py:304-309 | Presenting the refresh token rotated away last deletes its grant, and at no later point of any run does an access or refresh token of that family succeed. |
| AdminOAuthRuns.ReuseRevokesExactly | app/admin_oauth.py:306-312 | Of the refresh tokens a live grant has rotated away, exactly the last one deletes the grant; the documentation promises it for every one of them. |
| AdminOAuthExample.ReuseRevokesNothing | app/admin_oauth.py:304-326 | A concrete run: a client connects, refreshes twice and presents its first refresh token again; the grant stays. |
| AdminOAuthRuns.AncestorIsInert | app/admin_oauth.py:310-312 | A refresh token two or more rotations old, an access token, or a text never issued is refused and leaves the store as it was. |
| AdminOAuthRuns.DeadFamilyRefuses | app/admin_oauth.py:300-346 | No token of a family without a grant refreshes or is admitted. |
| AdminOAuthRuns.HashesTellPlaces | app/admin_oauth.py:317-324 | A stored access, refresh or previous-refresh hash matches a presented token exactly when the token has that place in the history of that grant. |
| AdminOAuthRuns.AdmissionIsExact | app/admin_oauth.py:329-346 | A bearer is admitted exactly with the current, unexpired access token of a stored grant, and as that grant; then a stamp that is 300 seconds old waits to be renewed, and nothing else changes. |
| AdminOAuthTokens.AccessTokenLivesAnHour | app/admin_oauth.py:260-346 | In every run a bearer is admitted exactly with the current access token of a stored grant, until 3600 seconds after the exchange or refresh that issued it. |
| AdminOAuthTokens.RefreshTokenLivesAMonth | app/admin_oauth.py:260-326 | In every run a refresh succeeds exactly with the current refresh token of a stored grant, for an admin and its own client (or none named), until 30 days after the exchange or refresh that issued it. |
| AdminOAuthTokens.CurrentIsLatest | app/admin_oauth.py:260-326 | In every run an issued token is current exactly while its grant is stored and no later tokens were issued to it. |
| AdminOAuthTokens.TokensShowTheirKind | app/admin_oauth.py:256-346 | Issued access tokens begin with rfa_at_ and refresh tokens with rfa_rt_, and only a bearer that begins with rfa_at_ is admitted. |
| AdminOAuthRuns.LateTouchRevivesNothing | app/admin_oauth.py:335-345 | A grant removed between the unlocked read and the locked write stays removed, in every run. |
| AdminOAuthRuns.TouchChangesStampOnly | app/admin_oauth.py:338-345 | The late write puts the time of the reading into the row of that grant, and changes no other row and no other field. |
| AdminOAuthRuns.RevokeIsExact | app/admin_oauth.py:349-353 | Revoking a current token removes exactly its grant; any other text removes nothing (section 2 of RFC 7009). |
| AdminOAuthRuns.RevokeGrantIsExact | app/admin_oauth.py:370-376 | An admin removes exactly his own grant of that id, or gets an error and nothing changes. |
| AdminOAuthRuns.StoreIsBounded | app/admin_oauth.py:290-296 | In every reachable store: at most 10 grants per admin, at most 200 in all, and live access and refresh hashes pairwise distinct. |
| AdminOAuthInvariant.EvictionKeepsNewest | app/admin_oauth.py:292-294 | Making room for a grant keeps the newest nine grants of that admin, in order. |
| AdminOAuthCodes.GrantEndsExactly | app/admin_oauth.py:290-376 | In every store that a run reaches, a grant goes exactly when its predecessor token is presented, its current one is presented while its owner is no admin, it is revoked, its owner gets a grant while nine newer ones of his follow it, or a full store of 200 pushes out the oldest. |
| AdminOAuthCodes.StoredGrantIs | app/admin_oauth.py:272-297 | A finished exchange stores a grant of the consent's admin and client, under the client's name, made at the time of the exchange, never used, with its two tokens as the current ones, behind all grants that stay, in their order. |
| AdminOAuthInvariant.StepKeepsInv | app/admin_oauth.py:101-376 | Every locked section keeps the store invariant (token ledger, caps, codes, bindings) and only extends the history; a dead family stays dead. |
| AdminOAuthRuns.CodeIsSingleUse | app/admin_oauth.py:263-271 | Any presentation of an issued code consumes it, also when client, redirect, verifier or time is wrong; each later presentation is refused (section 4.1.2 of RFC 6749). |
| AdminOAuthRuns.CodeIsIssuedOnce | app/admin_oauth.py:219-233 | No code is issued at two steps of a run. |
| AdminOAuthCodes.CodeIsAcceptedExactly | app/admin_oauth.py:219-271 | In every run a code is accepted exactly while it is stored, less than 300 seconds after the step that issued it, with the client and redirect URI of that step's form and a verifier, in ASCII, whose S256 image is its challenge. |
| AdminOAuthCodes.CodeEndsExactly | app/admin_oauth.py:219-271 | A stored code goes exactly when it is presented, when a section that writes the codes comes 300 seconds after its issue, or when it is the oldest of 200 unexpired ones and one more is stored. |
| AdminOAuthRuns.GrantTracesToConsent | app/admin_oauth.py:215-297 | Every grant of every reachable store goes back to one consent by that admin and one exchange with the same client and redirect URI, a verifier whose S256 image is the consented challenge (section 4.6 of RFC 7636), less than 300 seconds later. |
| AdminOAuthClients.GrantTracesToRegistration | app/admin_oauth.py:110-297 | And on back to the consent form and to the registration of its client: the redirect URI fits one of those registered (the same text, or the same local path under any port), and both are http on localhost or 127.0.0.1 with a path that ends with /callback, or https on one of the four names or below claude.ai or anthropic.com. |
| AdminOAuthClients.RegistrationIsExact | app/admin_oauth.py:110-136 | A registration succeeds exactly with one to five redirect URIs that are all of these forms, said on scheme, host and path; the client is then the newest of at most 80, and every other answer changes nothing. |
| AdminOAuthClients.LookAlikesAreRefused | app/mcp_oauth.py:133-145 | A host that ends with claude.ai without a dot before it is refused. |
| AdminOAuthClients.ConsentIsExact | app/admin_oauth.py:163-187 | In every run: each refusal of a consent request exactly when its own test is the first that fails, and acceptance exactly with the response type code, PKCE S256, a stored client, a redirect URI of these forms that fits a registered one, and our own resource or none. |
| AdminOAuthRuns.OneGrantPerCode | app/admin_oauth.py:260-297 | Two grants never come from the same code. |
| AdminOAuthServer.Server.RegisterClient | app/admin_oauth.py:110-136 | The section that appends and truncates the client list is the register step of the model. |
| AdminOAuthServer.Server.CheckConsentForm | app/admin_oauth.py:163-187 | The checks of an authorization request, in the order of the source, are the consent step. |
| AdminOAuthServer.Server.CompleteAuthorize | app/admin_oauth.py:215-240 | The loop that drops expired codes, the append and the truncation are the store-code step. |
| AdminOAuthServer.Server.ExchangeTakesCode | app/admin_oauth.py:260-271 | The search, the loop that writes the other rows back and the checks behind the first locked section are the take-code step. |
| AdminOAuthServer.Server.ExchangeStoresGrant | app/admin_oauth.py:272-297 | The loops of the second locked section, with eviction and truncation, are the store-grant step. |
| AdminOAuthServer.Server.RefreshTokens | app/admin_oauth.py:300-326 | The two searches, the removing loop and the in-place update are the refresh step. |
| AdminOAuthServer.Server.AuthenticateToken | app/admin_oauth.py:329-337 | The unlocked read is the read-token step. |
| AdminOAuthServer.Server.WriteLastUsed | app/admin_oauth.py:338-344 | The locked stamp write is the touch step. |
| AdminOAuthServer.Server.RevokeToken | app/admin_oauth.py:349-353 | The filtering loop is the revoke step. |
| AdminOAuthServer.Server.RevokeGrantById | app/admin_oauth.py:370-376 | The filtering loop with its missing-grant error is the revoke-grant step. |
| StaleCache.StepKeepsInv | app/billing.py:954-1000 | Every step of every thread keeps the busy set, the key locks and the entries consistent. |
| StaleCacheRuns.OneRefreshAndOneColdStart | app/billing.py:970-1000 | At any point of any run at most one thread refreshes a key in the background and at most one runs its cold start. |
| StaleCacheRuns.BusyExactlyWhileRefreshing | app/billing.py:970-993 | A key is busy exactly while its refresh is pending or running, or after a refresh thread for it could not be started. |
| StaleCacheRuns.OrphanedForGood | app/billing.py:984-993 | A key whose refresh thread could not be started stays busy and is never refreshed in the background again. |
| StaleCacheRuns.OrphanExample | app/billing.py:970-993 | A concrete run in which a failed thread start leaves a key busy with no thread at work. |
| StaleCacheRuns.StampsNeverDecrease | app/billing.py:976-980 | While the entry of a key stays, its stamp never decreases. |
| StaleCacheRuns.EntriesChangeByLoadsOnly | app/billing.py:976-991 | Failed loads leave the entries alone: between any two points of a run an entry is new or different only through the store of a thread whose load of that key succeeded, with that value and the time of the store. |
| StaleCache.RepliesAreHonest | app/billing.py:962-999 | Each answered value was loaded for that key and is younger than ttl or, when stale, at most max_stale old. |
| StaleCacheRuns.ServedValuesAreHonest | app/billing.py:962-999 | The same for every answer of every run. |
| StaleCacheRuns.LoadsComeFromLoaders | app/billing.py:976-980 | Every value known as loaded was the result of a successful loader at an earlier step. |
| StaleCacheServing.LookUpServes | app/billing.py:962-974 | In every run, by the entry that a look-up finds and its age when the call came: one younger than ttl answers at once and starts nothing, one at most max_stale old answers at once if the key is busy and otherwise makes the key busy with the caller about to start the refresh, and only without either the caller waits for the key's lock. |
| StaleCacheServing.ThreadStartServes | app/billing.py:982-994 | The next step of such a caller starts the refresh and answers with the value that its look-up found; if no thread can be started it raises. |
| StaleCacheServing.WaitingHasReason | app/billing.py:962-995 | In every run a thread waits for a key's lock only if its look-up found no entry of the key or one too old for both bounds. |
| StaleCacheServing.LockHolderServes | app/billing.py:995-999 | Behind the lock a caller gets the entry it reads again if that is fresh by then, and otherwise loads. |
| StaleCacheServing.LoadIsStored | app/billing.py:976-999 | A successful load is stored under the time of the storing; a caller behind the lock gets its value, a background refresh answers nobody. |
| StaleCacheServing.FailedLoadStoresNothing | app/billing.py:976-999 | A failed load leaves every entry; a caller behind the lock gets the exception and frees the lock, a refresh goes on to release its key. |
| StaleCacheServing.InvalidationIsExact | app/billing.py:947-951 | An invalidation drops exactly the entries whose key begins with one of the prefixes, all without prefixes, and touches nothing else. |
| StaleCacheRuns.StripeCache.Look | app/billing.py:962-974 | The locked look-up decides and marks the busy set as the step function does. |
| StaleCacheRuns.StripeCache.InvalidateCache | app/billing.py:947-951 | The loop drops exactly the entries whose key starts with one of the prefixes, all of them without prefixes. |
| LiveShare.StepKeepsInv | app/live_share.py:37-75 | Every get, task end, callback and clock step keeps flights, cache, task results and counters consistent, with at most 512 entries. |
| LiveShare.OneFlightPerKey | app/live_share.py:53-58 | At any point of any run there is at most one unfinished task per key. |
| LiveShare.CallsShare | app/live_share.py:46-75 | A call reuses a cached result at most ttl old, joins the unfinished task of its key, or, only when there is neither, starts and registers one; each of the three is counted as itself, and a call without a ttl changes nothing. |
| LiveShare.ReusedTracesToTask | app/live_share.py:46-70 | A reused value was the successful, cacheable result of a task of that key that ended at an earlier step and whose callback stored it at the time its age is counted from. |
| LiveShare.LateCallbackIsHarmless | app/live_share.py:61-63 | A callback of an older task does not unregister a newer task of its key. |
| LiveShare.CallbackCaches | app/live_share.py:64-70 | A callback caches exactly the successful, cacheable result of its own task; failed, cancelled and non-cacheable ones leave the cache alone. |
| LiveShareReuse.CallbackFrame | app/live_share.py:29-70 | What a callback changes: only its own task is unregistered; a cacheable result takes the place of the entry of its key, or goes behind the others; these all stay, in order, if there were less than 512, and at 512 exactly those go that are older than the ttl, and of the rest the oldest in insertion order until 512 are left. |
| LiveShareReuse.StoredResultIsReused | app/live_share.py:46-70 | In every run a cacheable result answers every call of its key that finds it within the call's ttl, until a later callback stores a result of that key or one of a new key into 512 stored ones. |
| LiveShare.CallsAreCounted | app/live_share.py:50-59 | fetched + joined + reused is the number of sharing calls of the run. |
| LiveShare.PrunedKeepsCache | app/live_share.py:29-35 | Pruning keeps the newest entry and ends with at most 512 entries. |
| LiveShare.Share.Get | app/live_share.py:37-59 | The synchronous part of get changes the maps and counters as the step function does. |
| LiveShare.Share.Finish | app/live_share.py:61-70 | The done callback changes the maps as the step function does. |
| LiveShare.Share.Prune | app/live_share.py:29-35 | The two pruning loops compute the pruned cache. |
| RateLimit.PoppedIsFilter | app/rate_limit.py:17-20 | On ordered stamps popping from the left is filtering by age. |
| RateLimit.DequeRefinesList | app/rate_limit.py:23-39 | Under a nondecreasing clock and below the bucket reset the deque limiter and the list limiter keep the same stamps and give the same answers, whatever limit and window each key has. |
| RateLimit.WindowBound | app/rate_limit.py:23-39 | For every call sequence with at most 20000 keys, any half-open window of its key's length holds at most `limit` calls of a key that the deque limiter allowed. |
| RateLimit.BoundUntilReset | app/rate_limit.py:23-39 | The same for every call sequence in which nothing was reset, whatever its keys. |
| RateLimit.ListWindowBound | app/agents.py:657-665 | The list limiter, which never resets, keeps that bound for every call sequence. |
| RateLimit.AllowedExactly | app/rate_limit.py:23-39 | A call is allowed exactly when less than `limit` calls of its key were allowed less than a window before it: for the list limiter in every sequence, for the deque limiter as long as nothing was reset. |
| RateLimit.BoundHoldsExactly | app/rate_limit.py:23-39 | For any limits of at least one and windows of positive length: every sequence with at most n keys is kept to the limits exactly when n is at most 20000. |
| RateLimit.RefinementHoldsExactly | app/rate_limit.py:23-39 | And exactly then the two limiters give the same answers to every such sequence. |
| RateLimit.RefinementHoldsUntilResetExactly | app/rate_limit.py:23-39 | For every single run: the two limiters agree all along exactly when no allowed call made the buckets too many. |
| RateLimit.ResetBreaksTheBound | app/rate_limit.py:36-38 | For any such limits, a sequence over 20001 keys in which the reset lets the first key through once more than its limit at one instant. |
| RateLimit.Limiter.Check | app/rate_limit.py:23-39 | The loop of the deque limiter, its append and the reset compute the step function. |
| RateLimit.HitList.RateOk | app/agents.py:657-665 | The filtering loop and the append of the list limiter compute its step function. |
| FilterBridgeLaws.BezrealitkyRoundTrip | app/filter_bridge.py:128-323 | Converting any Sreality filters to Bezrealitky and back gives exactly the supported tokens of offers, sizes, districts, ownership, conditions, buildings and extras, each once, in order of first occurrence, and unchanged bounds; the whole country comes back as the fourteen regions. |
| FilterBridgeLaws.BezrealitkyRoundTripIsProjection | app/filter_bridge.py:128-323 | Converting there and back a second time changes nothing, for every filter. |
| FilterBridgeLaws.DistrictsReturn | app/filter_bridge.py:151-167 | Districts alone: the supported ones, or the fourteen regions when the list means the whole country. |
| FilterMeaning.BezrealitkyMeansTheSame | app/filter_bridge.py:128-201 | For all filters: a token is in a converted list exactly if it means the same as one of the given list. Sizes by their number of rooms and kitchen, 6-a-vice being every size of six rooms or more that Bezrealitky has (app/bezrealitky_url.py:28-31); buildings with ostatni being all that it has besides brick and panel; conditions and places by the label that both portals show; price and area as they are. |
| FilterMeaning.SrealityMeansTheSame | app/filter_bridge.py:204-323 | The same in the other direction, by the same relations; a partial reconstruction counts as one, an area range as its extra, the country as the fourteen regions, and an unknown place as the parts of its guessed slug. |
| FilterMeaning.VocabularyIsTranslated | app/filter_bridge.py:217-227 | Every size and building of Bezrealitky has a translation: a search with only such adds nothing to the skipped list. |
| FilterMeaning.FurtherAreNamed | app/filter_bridge.py:190-201 | Energy, points of interest, floor and kind of property are named in the skipped list when they are given. |
| FilterMeaning.RestIsNamed | app/filter_bridge.py:303-323 | So are the ten filters that only Bezrealitky has. |
| FilterMeaning.LostAreNamed | app/filter_bridge.py:229-245 | Towards Sreality the localities that are neither the country nor a known place and have no guessed slug are named in the skipped list, and no others. |
| FilterMeaning.EstatesAreNamed | app/filter_bridge.py:209-212 | So are all kinds of property other than flats. |
| FilterMeaning.PlaceIsNamed | app/filter_bridge.py:151-167 | A Bezrealitky search calls its place by the names of its known districts, in order, with commas between. |
| FilterBridgeLaws.IdnesRoundTrip | app/filter_bridge.py:503-594 | Through iDNES and back every list is exactly coarsened: one offer, merged conditions and buildings, dropped ownership, shared extras. |
| FilterMeaning.IdnesMeansTheSame | app/filter_bridge.py:503-547 | Towards iDNES a token is in a converted list exactly if it means the same as a given one, by spelling and label, except that very good counts as good and municipal ownership as other; one offer of those given; the category by its name. |
| FilterMeaning.SrealityMeansIdnes | app/filter_bridge.py:550-594 | And from iDNES, except that kept up counts as good and other buildings as ostatni. |
| FilterMeaning.IdnesRestIsNamed | app/filter_bridge.py:550-594 | The kind of property, the furnishing and the age of a listing, which Sreality does not have, are named in the skipped list. |
| FilterBridgeLaws.IdnesRoundTripIsIdempotent | app/filter_bridge.py:503-594 | Applying the pair of conversions twice equals applying it once, for every filter. |
| FilterBridgeLaws.BezrealitkyDropsNothing | app/filter_bridge.py:128-201 | Every non-empty offer, size, ownership, condition, building and extra token, and every district outside a whole-country list, is translated into the result or named in the skipped list. |
| FilterBridgeLaws.IdnesDropsNothing | app/filter_bridge.py:503-547 | The same towards iDNES for sizes, ownership, conditions, buildings and extras. |
| FilterBridgeLaws.IdnesKeepsFirstOffer | app/filter_bridge.py:503-514 | Of the offers iDNES gets the first that has a translation, those without one are named in the skipped list, and every district is kept. |
| FilterLists.RoundTrip | app/filter_bridge.py:326-333 | Two token translations of which one undoes the other on the supported tokens compose, with deduplication between them or not, to keeping the supported tokens once. |
| FilterLists.CoarseningIsIdempotent | app/filter_bridge.py:561-577 | A translation that maps its own outputs to themselves is idempotent on deduplicated lists. |
| FilterBridge.MapList | app/filter_bridge.py:326-333 | The loop over a list gives the deduplicated translations and appends the labels of the untranslated tokens to the skipped list. |
| FilterBridge.ConvertSrToBr | app/filter_bridge.py:128-201 | The converter as a sequence of loops computes the conversion and its skipped list. |
| FilterBridge.ConvertBrToSr | app/filter_bridge.py:204-323 | The same in the other direction. |
| FilterBridge.ConvertSrToIdnes | app/filter_bridge.py:503-547 | The same towards iDNES. |
| FilterBridge.ConvertIdnesToSr | app/filter_bridge.py:550-594 | The same from iDNES. |
| CatalogSnap.NextKeepsInv | app/catalog_snap.py:110-174 | Inserts, updates, builds, deltas and restarts keep every snapshot row a live row version under its own identity, the watermark at the newest snapshot stamp, and everything older than the watermark covered. |
| CatalogSnap.CoverageAfterDelta | app/catalog_snap.py:151-174 | Right after a delta the identities of the snapshot equal those of the live table exactly when the last build saw a listing or the table is still empty, for every run. |
| CatalogSnap.EmptyBuildSticks | app/catalog_snap.py:153-154 | After a build of an empty table no delta adds anything until the next build. |
| CatalogSnap.EmptyBuildExample | app/catalog_snap.py:151-154 | A concrete run: a build of the empty table, one listing, and a delta that does not see it. |
| CatalogSnap.RowsAreVersions | app/catalog_snap.py:127-165 | At every moment of every run a snapshot row is a version the live table really held, under its own identity. |
| CatalogSnap.BuildKeepsNewest | app/catalog_snap.py:126-128 | A build covers exactly the live identities, each with a live row of the newest first_seen. |
| CatalogSnap.DeltaIsExact | app/catalog_snap.py:158-165 | What a delta does to one identity in any scan order: rows withdrawn since the second watermark win, then rows first seen since the first, otherwise nothing changes. |
| CatalogSnap.AdoptionKeepsTheMark | app/catalog_snap.py:203-225 | Recomputing the watermark from the file at a restart gives the same watermark. |
| CatalogSnap.MarksAreNewest | app/catalog_snap.py:127-174 | After a build, a delta or a restart each of the two marks is the newest stamp of the snapshot, or without stamps what it was. |
| CatalogSnap.TiesAreBuilt | app/catalog_snap.py:126-128 | Listings first seen at the same time may be read in any order; of two with one identity the first read stays. |
| CatalogSnap.WithdrawnRowLowersTheMark | app/catalog_snap.py:161-174 | A concrete delta whose second pass lowers the watermark. |
| CatalogSnap.Snapshot.BuildFull | app/catalog_snap.py:110-147 | The insert-or-ignore pass and the maxima make the build step. |
| CatalogSnap.Snapshot.RefreshDelta | app/catalog_snap.py:151-174 | The two replacing passes and the maxima make the delta step. |
| CatalogSnap.MaxOr | app/catalog_snap.py:166-174 | The maximum of the stamps, or the previous watermark when there is none. |
| AgentClaims.ApprovedAtMostOnce | app/mcp_oauth.py:450-464 | A claim token is answered "approved" at most once in any run; later polls answer "expired". |
| AgentClaims.ApprovalTracesBack | app/mcp_oauth.py:435-464 | "Approved" is answered only after an approval of that claim's own row with its then current code, before its then expiry, by an account matching the stored e-mail hint; the answer names that user. |
| AgentClaims.ApprovedUserIsFinal | app/mcp_oauth.py:411-447 | An approved user is never overwritten. |
| AgentClaims.RefreshKillsCode | app/mcp_oauth.py:411-432 | After a refresh the claim's earlier code approves and finds nothing for the rest of the run. |
| AgentClaims.SettledIsFinal | app/mcp_oauth.py:411-464 | A row that is approved or has expired never changes again. |
| AgentClaims.ExpiredPollsExpired | app/mcp_oauth.py:458-464 | A claim that expired unapproved is answered "expired" from then on. |
| AgentClaims.ApprovalIsExact | app/mcp_oauth.py:435-447 | An approval is granted exactly when a pending, unexpired row carries the code and its hint allows the account, and changes the user of that row only. |
| AgentClaimsExact.PollIsExact | app/mcp_oauth.py:450-464 | A poll answers by the claim's own row: approved once a user has approved it, and then exactly that row goes; otherwise pending or expired by its time; expired without a row. |
| AgentClaimsExact.RefreshIsExact | app/mcp_oauth.py:411-423 | A refresh succeeds exactly for an open claim of that token; it changes its code, its expiry to 15 minutes from now and, if given, its hint, and no other row. |
| AgentClaimsExact.CreateIsExact | app/mcp_oauth.py:394-408 | A new claim is open for 15 minutes with its hint cut to 254 characters; expired claims go, and of the others only the oldest of 200. |
| AgentClaimsExact.FindIsExact | app/mcp_oauth.py:426-432 | A code finds exactly the open claim that carries it. |
| AgentClaimsExact.PendingForAQuarterHour | app/mcp_oauth.py:394-464 | In every run a poll of a stored claim that is not approved says pending until 15 minutes after the last call that made or renewed it, and expired from then on. |
| AgentClaimsExact.ApprovableForAQuarterHour | app/mcp_oauth.py:394-447 | In every run a stored claim is approved by its code exactly within that time, once, by an account that its hint allows. |
| AgentClaims.LongEmailExample | app/mcp_oauth.py:394-447 | A claim made with an e-mail of 255 characters cannot be approved by the account of that e-mail. |
| AgentClaims.StepKeepsInv | app/mcp_oauth.py:394-464 | At most 200 rows, with distinct tokens and distinct codes, after every call. |
| AgentClaims.ClaimStore.CreateClaim | app/mcp_oauth.py:394-408 | Filtering, appending and truncating is the create step. |
| AgentClaims.ClaimStore.RefreshClaim | app/mcp_oauth.py:411-423 | The search and in-place change is the refresh step. |
| AgentClaims.ClaimStore.FindClaimByCode | app/mcp_oauth.py:426-432 | The search returns the first open row of the code. |
| AgentClaims.ClaimStore.ApproveClaim | app/mcp_oauth.py:435-447 | The search, the hint check and the in-place change are the approve step. |
| AgentClaims.ClaimStore.PollClaim | app/mcp_oauth.py:450-464 | The search, removal and answer are the poll step. |
| StripTags.StripTags | app/html_listing.py:131-156 | Within the size cap the scan computes leftmost non-overlapping replacement of `<[^>]+>` by a space, and looks at each character at most twice. |
| StripTags.MatchEndIsMatch | app/html_listing.py:131-132 | The recursive match is the pattern: a span from a position matches exactly when it ends there. |
| StripTags.FirstTagBecomesSpace | app/html_listing.py:131-156 | The leftmost tag becomes one space, what stands before it stays, and the substitution goes on behind it; a text without a tag stays as it is. These two determine the result. |
| StripTags.SubIsIdempotent | app/html_listing.py:131-156 | Stripping stripped text changes nothing. |
| StripTags.SubIsTagless | app/html_listing.py:131-156 | No tag is left, not even across a replaced one. |
| StripTags.StrippedIsShort | app/html_listing.py:133-135 | The result is no longer than the text or the cap; texts within the cap are stripped whole. |
| Pagination.FetchAllIsComplete | app/html_listing.py:556-578 | For every page size: against a stable server with distinct ids the crawl returns exactly the list, in order, with its total, in max(1, ceil(n / size)) requests, and under a page limit the pages up to the limit. |
| Pagination.FirstTotalIsEnough | app/html_listing.py:564-576 | A server that tells the total on its first page only is one that this holds of. |
| Pagination.DuplicatesExactly | app/html_listing.py:568-573 | Against any server the result repeats an id exactly when some page that the limit allows, and up to which every page lists a new id while the total calls for more, repeats an id that no earlier page had. |
| Pagination.RequestedExactly | app/html_listing.py:561-577 | Those are exactly the pages that are requested. |
| Pagination.DuplicateInOnePage | app/html_listing.py:568-573 | A concrete page with one listing twice is returned with both copies, whatever the page size. |
| Pagination.RequestsAreBounded | app/html_listing.py:561-577 | Whatever the server answers, the crawl makes at most one request more than it finds distinct ids. |
| Pagination.AddedShrinks | app/html_listing.py:568-577 | Each page the crawl continues past added a new id: the termination measure. |
| Pagination.FetchAllPages | app/html_listing.py:556-578 | The loop terminates and computes the crawl, for every page size. |
| Pagination.FetchPages | app/html_listing.py:540-554 | The loops compute the merged first pages and the last total that a page reported. |
| Pagination.ReportedByAPage | app/html_listing.py:544-546 | Against any server the total is one that one of the requested pages reported, or zero. |
| Pagination.FetchPagesHasNoDuplicates | app/html_listing.py:540-554 | fetch_pages never returns an id twice, whatever the server answers. |
| Pagination.FetchPagesIsPrefix | app/html_listing.py:540-554 | Against a stable server fetch_pages gives the prefix of the list that fetch_all gives under the same page limit, and the true total. |
| Cms.UniqueSlug | app/cms.py:293-301 | The suffix search ends after at most as many tries as there are taken slugs, with a free slug: the base, or the first free base-2, base-3, ... |
| Cms.UniqueSlugIsUnique | app/cms.py:293-301 | That description determines the slug. |
| Cms.TriedFits | app/cms.py:298-300 | Pigeonhole: a run of taken numbered slugs is no longer than the taken set. |
| Cms.NextKeepsOk | app/cms.py:280-413 | Distinct ids, distinct slugs and at most one featured article survive saving, deleting and publishing. |
| Cms.RunKeepsOk | app/cms.py:280-413 | They hold at every point of every run that starts with them. |
| Cms.SaveKeepsOk | app/cms.py:384-404 | Saving a new or an existing article keeps them. |
| CmsSaving.SaveIsExact | app/cms.py:304-404 | What a save does: under no key it adds a blank article as the request sets it, under an id or slug it saves the first such article, under any other key it changes nothing. Each field of the saved article is given: its own or the requested value, a crumb from the author or 40 characters of the title, draft for an unknown status, a date of publication once published, the first free slug, and the time; the others lose only the featured mark when it has it. |
| CmsSaving.PublicationChangesStatusOnly | app/cms.py:280-290 | Due publication changes nothing but the status, each article staying in its place. |
| Cms.PublishedExactlyWhenDue | app/cms.py:280-290 | Over any stretch of a run that does not edit an article, publication moves it from scheduled to published exactly when its date is readable and reached by one of the publications, and nothing else changes its status. |
| Cms.ArticleStore.SaveArticle | app/cms.py:384-404 | The look-up, the payload and the rewriting loop are the save step; an unknown key is an error that changes nothing. |
| Cms.ArticleStore.ApplyPayload | app/cms.py:304-330 | The saved article keeps its id and is the edited one under the allocated slug. |
| Cms.ArticleStore.DeleteArticle | app/cms.py:407-413 | Exactly the articles with that id or slug are removed; finding none is an error. |
| Cms.ArticleStore.PublishDueArticles | app/cms.py:280-290 | The loop over the articles computes the due publication. |
| EnvFile.ReadsBackExactly | app/backup.py:104-142 | Reading the written file back, last assignment winning, gives the old values overridden by the settings, exactly when no setting holds a line break and the last written line is no assignment whose value ends in white space. |
| EnvFile.ReadsBackWhenTrimmed | app/backup.py:104-142 | In particular when no setting holds a line break and no written value ends in white space. |
| EnvFile.OutputValues | app/backup.py:109-141 | The lines to be written assign exactly the old values overridden by the settings. |
| EnvPlaces.LinesKeepTheirPlace | app/backup.py:104-142 | Every line keeps its place: one that assigns nothing stays as it is, one that assigns a key becomes that key with its last setting, or else the last value in the file; behind them the settings of keys that no line assigned, in order. |
| EnvPlaces.SettingsAreCapitals | app/backup.py:15-25 | The settings written are exactly those of the nine that have a value, under their names in capitals, switches as 1 and 0. |
| EnvFile.CommentsSurvive | app/backup.py:109-142 | For settings without line breaks all non-blank comment lines survive, in order, up to white space behind them. |
| EnvBreaks.WritingTwiceExactly | app/backup.py:104-142 | For all files and settings: writing the same settings again gives the same text, exactly unless some written line runs over several lines because of a break in its setting, or the last written line that is not blank assigns a value ending in white space, no setting gives its key, and an earlier line assigns it too. |
| EnvBreaks.SpanningGrowsTheFile | app/backup.py:104-142 | If a written line runs over several lines, the next write of the same settings makes the file longer. |
| EnvFile.PortExamples | app/backup.py:106-142 | One line PORT=80 with a blank behind it does not read back; of two such lines the second write changes one. |
| EnvFile.LinesOfText | app/backup.py:106-142 | Reading the joined and right-stripped text as lines, at every line break splitlines knows, gives the lines without blank ones at the end. |
| EnvFile.ChosenIsWritable | app/backup.py:119-128 | Whatever the settings are, the chosen ones have distinct keys without line breaks that read back. |
| EnvFile.WriteEnv | app/backup.py:104-142 | The loops compute the text. |
| CatalogMatch.WideningKeepsMatchesExactly | app/catalog_sync.py:539-594 | Of all edits that look like widenings (looser bounds, extended or cleared lists, fewer amenities, choices kept or dropped), a matching listing is lost exactly by these three: the first recognised offer is added and the listing has another; sizes or dispositions are cleared beside the other list, which the listing does not fit; a choice is cleared that is ticked among the amenities and of which the listing has no sign. |
| CatalogMatch.AddedOfferNarrowsExactly | app/catalog_sync.py:562-575 | Adding a recognised offer loses a matching listing exactly when the list had no recognised offer and the listing has another one. |
| CatalogMatch.AddedOfferExample | app/catalog_sync.py:562-575 | With foldings that change nothing: a filter with the offer `podnajem`, which is not recognised, takes a flat for rent and stops taking it when sale is added. |
| CatalogMatch.ClearedSizesNarrowExactly | app/catalog_sync.py:576-582 | Clearing the sizes loses a matching listing exactly when other dispositions are set and do not include its own. |
| CatalogMatch.ClearedSizesExample | app/catalog_sync.py:576-582 | With foldings that change nothing: a flat 3+kk is taken by the size `disp_3_kk` beside the disposition 2+kk, and lost when the sizes are cleared. |
| CatalogMatch.ClearedDispositionsNarrowExactly | app/catalog_sync.py:576-582 | Clearing the dispositions loses a matching listing exactly when sizes are set and its disposition fits none of them. |
| CatalogMatch.ClearedDispositionsExample | app/catalog_sync.py:576-582 | A flat 3+kk is taken by the disposition 3+kk beside the size `disp_2_kk`, and lost when the dispositions are cleared. |
| CatalogExtra.ExtraWidensExactly | app/catalog_extra_filters.py:77-131 | Of the further filters: an edit that looks like a widening loses a matching listing exactly when a choice is cleared that is ticked among the amenities too and of which the listing has no sign. |
| CatalogExtra.ClearedChoiceNarrowsExactly | app/catalog_extra_filters.py:106-122 | Clearing the choice about roommates, pets or short terms loses a matching listing exactly when it is ticked among the amenities too and the listing shows no sign of it. |
| CatalogExtra.ClearedRoommateExample | app/catalog_extra_filters.py:106-122 | A filter that excludes roommates and ticks them as well. |
| CatalogExtra.ExtraTest | app/catalog_extra_filters.py:77-131 | The early-return tests decide the further filters. |
| CatalogExtra.ListTest | app/catalog_extra_filters.py:59-66 | The loops over choices and patterns decide a list. |
| CatalogWords.BuildingsAskExactly | app/catalog_extra_filters.py:15-24 | Asking for a building finds exactly the listings that name it as iDNES does, among those that name one of its seven. |
| CatalogWords.FurnishingAsksExactly | app/catalog_extra_filters.py:25-41 | Asking for a furnishing finds exactly the listings whose value means it, of the eight values that the portals use. |
| CatalogWords.OtherBuildingsAskExactly | app/catalog_extra_filters.py:15-24 | Other buildings are those of stone, of a skeleton, assembled or mixed, among the seven. |
| CatalogWords.TextsAskExactly | app/catalog_extra_filters.py:77-99 | Good and bad condition and projects are found in running text, each by its own words only. |
| CatalogWords.PartialReconstructionIsFound | app/catalog_extra_filters.py:77-99 | A listing that states a partial reconstruction is found by asking for a reconstruction, and otherwise by its own words only. |
| CatalogWords.RoommateAsksExactly | app/catalog_extra_filters.py:106-131 | Asking for roommates finds the listings with one of four signs of them, asking for none the others. |
| CatalogWords.PetsAskExactly | app/catalog_extra_filters.py:106-131 | The same for pets with two signs. |
| CatalogWords.ShortTermAsksExactly | app/catalog_extra_filters.py:106-131 | The same for short terms with one sign. |
| CatalogWords.ClearingLooksWider | app/catalog_extra_filters.py:77-131 | Leaving the further filters as they are or clearing a choice is among the edits that look like widenings. |
| CatalogMatch.RestrictionIsExact | app/catalog_sync.py:643-672 | A monitor restricted to a portal matches exactly the listings on it that it matches with "all". |
| CatalogMeaning.MatchesEachExactly | app/catalog_sync.py:539-594 | A listing matches a filter exactly if it matches each of its restrictions on its own. |
| CatalogMeaning.BoundsAskExactly | app/catalog_sync.py:550-561 | Bounds on price and area ask that the listing's lie within them, the bounds included; what a listing does not tell passes. |
| CatalogMeaning.SourceAndKindAskExactly | app/catalog_sync.py:546-590 | A portal asks for that portal unless portals are ignored; kinds ask for one of them, and an unknown kind passes. |
| CatalogMeaning.OffersAskExactly | app/catalog_sync.py:562-575 | With foldings that change nothing: offers of the portals ask for exactly the listings with one of them. |
| CatalogMeaning.SizesAskExactly | app/catalog_sync.py:675-694 | With foldings that change nothing: sizes of one to five rooms ask for exactly the flats of that many rooms and that kitchen, among flats so spelled. |
| CatalogMeaning.SpecialSizesMatchExactly | app/catalog_sync.py:675-694 | The sizes without a number of rooms, and six rooms or more, are found in the listings of exactly that kind: unusual ones, single rooms, and flats of six to eight rooms. |
| CatalogMeaning.PragueNumbersAskExactly | app/catalog_sync.py:697-721 | A filter on a numbered district of Prague takes a listing of a numbered district, none of whose named parts occurs in it, exactly when its number begins the listing's. |
| CatalogMeaning.PragueTenIsTakenForOne | app/catalog_sync.py:697-721 | So the filter on Praha 1 takes a listing in Praha 10. |
| CatalogMeaning.NamedDistrictsAskExactly | app/catalog_sync.py:722-729 | Any other district is found by the names of its region if it is one, and otherwise by its own name, wherever it occurs in the text. |
| CatalogMeaning.DistrictsAskExactly | app/catalog_sync.py:705-730 | Districts ask for one of them; a listing of unknown locality passes, and every listing does for the country or all its regions. |
| CatalogMeaning.MonitorsAskExactly | app/catalog_sync.py:636-672 | A monitor takes a listing exactly if one of its searches on the listing's portal takes it, it watches that portal or all, and its own filters, if any, take it too. |
| CatalogMeaning.ClearingLooksWider | app/catalog_sync.py:539-594 | Leaving a filter as it is, clearing its bounds or its offers are among the edits that look like widenings. |
| CatalogMeaning.ClearingListsLooksWider | app/catalog_sync.py:576-593 | So is clearing sizes, dispositions, kinds or districts. |
| CatalogMatch.ListingMatches | app/catalog_sync.py:539-594 | The early-return tests decide the match. |
| CatalogMatch.DispositionLoop | app/catalog_sync.py:675-694 | The loop finds a size that matches. |
| CatalogMatch.LocalityLoop | app/catalog_sync.py:705-730 | The tests and the loop decide the locality match. |
| CatalogMatch.MonitorLoop | app/catalog_sync.py:643-657 | The loop over the targets decides the monitor match. |
| BezrealitkyUrl.ParseOfBuildIsCanonical | app/bezrealitky_url.py:233-373 | parse_url of build_url is the canonical form of the filters, for all filters: defaults filled in, unsupported flags and extras dropped, texts stripped and unescaped, the date as it comes back. |
| BezrealitkyUrl.BuildAfterParseIsStableExactly | app/bezrealitky_url.py:233-373 | For all filters: writing, reading and writing again gives the same URL exactly when the date is absent, the epoch, or a later whole day up to the year 9999, the map area holds no escape, and the name of the place comes back (or is given again by its district). |
| BezrealitkyUrl.CanonicalIsIdempotent | app/bezrealitky_url.py:233-373 | Under that condition the canonical form is its own canonical form. |
| BezrealitkyUrl.DatesFrom1970AreStable | app/bezrealitky_url.py:210-230 | A date written YYYY-MM-DD is stable exactly from 1970 on. |
| BezrealitkyUrl.EarlyDateIsLost | app/bezrealitky_url.py:210-230 | A date before 1970 makes the second URL differ. |
| BezrealitkyUrl.EarlyDateExample | app/bezrealitky_url.py:210-230 | A search with the date 1969-12-31. |
| BezrealitkyUrl.EscapeExample | app/bezrealitky_url.py:295-373 | Any search whose map area is the escape %41 gets a different second URL. |
| BezrealitkyUrl.UrlReadsBack | app/bezrealitky_url.py:233-314 | Reading a written URL finds for every parameter exactly the values written for it. |
| BezrealitkyQuery.UrlSays | app/bezrealitky_url.py:233-310 | What the URL of any search says under the portal's own names: each bound as a decimal number under its quantity with From or To, each list value by value with two defaults, each extra under its own name, switches where they differ from the usual, place, surroundings, date in seconds from 1970, advert and map area, and nothing for what is not set. |
| BezrealitkyQuery.UrlMeans | app/bezrealitky_url.py:313-373 | What any URL means to the reader, whoever wrote it: lists value by value with two defaults, bounds as whole numbers, extras and switches by their words in letters of either case, advert and surroundings under either of two names, a date as the day of its seconds. |
| BezrealitkyQuery.AddressIs | app/bezrealitky_url.py:310 | The URL is the address of the search page with that query. |
| Decimals.ParseIsPrintInverse | app/bezrealitky_url.py:191-207 | Every integer, also a negative one, is read back from its decimal form. |
| BezrealitkyUrl.DateWrittenAgain | app/bezrealitky_url.py:210-230 | A date goes through its epoch form and back unchanged exactly when it is stable. |
| BezrealitkyUrl.TextInjective | app/bezrealitky_url.py:233-309 | No two parameters share a name. |
| BezrealitkyUrl.WriteUrl | app/bezrealitky_url.py:233-310 | The appending loops compute the URL. |
| FormEncoding.ParseIsInverse | app/bezrealitky_url.py:310-314 | Reading a written query gives back the pairs, in order, whatever they contain (section 2.1 of RFC 3986). |
| FormEncoding.BytesAreEscaped | app/bezrealitky_url.py:310 | Letters, digits and four signs are written as themselves, a space as a plus sign, every other byte as a percent sign with two capital hexadecimal digits (section 2.1 of RFC 3986). |
| Calendar.DateOfItsDay | app/bezrealitky_url.py:210-230 | A date from 1970 on is found again from its day number. |
| Calendar.DayOfDate | app/bezrealitky_url.py:222-230 | A day number is found again from its date. |
| Calendar.DaysAreCounted | app/bezrealitky_url.py:210-230 | Day numbers count the days of the Gregorian calendar from 1970-01-01. |
| Calendar.IsoIsInverse | app/bezrealitky_url.py:216-228 | A date is read back from its ISO text. |
| IdnesMarks.ParseOfBuildIsCanonicalExactly | app/idnes_url.py:160-245 | For every locality that assigns nothing itself: parse_url of build_url is the canonical form of the filters (unsupported values dropped, zero bounds absent, defaults filled in, the merged amenities split again, through form encoding and decimals) exactly when the locality holds no question mark or number sign, or when no parameter is written and the text behind the mark does not name `sort`. |
| IdnesMarks.QuestionMarkLosesFirst | app/idnes_url.py:205-218 | Behind a locality with a question mark exactly the first written parameter is lost, and every other one reads back, when the locality names no parameter. |
| IdnesMarks.MarkExample | app/idnes_url.py:205-218 | A search for 1+kk in `x?y` or `x#y` comes back without sizes. |
| IdnesMarks.SortExample | app/idnes_url.py:205-245 | The locality `x?sort#` names the order of the results. |
| IdnesMarks.AssignedExample | app/idnes_url.py:205-245 | A locality with `?dispozice=1-kk&y` in it makes the sizes 1+kk, whatever was searched, so a search for them comes back. |
| IdnesUrl.PathReadsBack | app/idnes_url.py:160-222 | For all filters offer and category come back, and of the districts the first path part of the locality that stands before a question mark or number sign, or the default. |
| IdnesUrl.LocalitySurvivesExactly | app/idnes_url.py:160-268 | A single district comes back exactly when it is trimmed, not empty, without slash, question mark, number sign, comma, tab or line break, not `s`, not an OSM id of the table and not a name of the country. |
| IdnesUrl.IdOfBrnoIsLost | app/idnes_url.py:248-268 | The OSM id R438171 comes back as something else. |
| IdnesUrl.NumberSignLosesFilters | app/idnes_url.py:205-245 | A number sign that is the first mark in the locality loses every list, bound and flag of the filters. |
| IdnesUrl.AmenitiesSplitBack | app/idnes_url.py:183-230 | The merged amenity list splits back into exactly the selected extras and the selected equipment. |
| IdnesUrl.QueryReadsBack | app/idnes_url.py:170-225 | Reading a written query finds for every parameter exactly the values written for it. |
| IdnesQuery.UrlSays | app/idnes_url.py:170-206 | What the URL of a search says under the portal's own names, unless its locality holds a mark: of each list the tokens that iDNES offers, between bars and in order, non-zero bounds, the three ages, the switches and an unusual order, and nothing for what is not set. |
| IdnesQuery.UrlMeans | app/idnes_url.py:209-245 | What the query of any URL means to the reader: lists as the tokens of one value, amenities by what the portal offers as extras and as equipment, numbers, age and switches under their names in the portal's form or else their plain ones. |
| IdnesQuery.BarsPart | app/idnes_url.py:284-285 | The tokens of a value stand between bars, which may be escaped as %7C, and empty ones do not count. |
| IdnesQuery.AddressIs | app/idnes_url.py:160-206 | The URL begins with the address of the site, the offer and the category, each with its default. |
| IdnesQuery.ChosenIsAgreed | app/idnes_url.py:248-268 | Several districts become the one locality that they all are, Prague if they are all of Prague, and none otherwise. |
| IdnesQuery.CountryIsNoLocality | app/idnes_url.py:248-268 | A district that names the whole country makes the search nationwide, whatever the others are. |
| IdnesUrl.FindLocality | app/idnes_url.py:248-268 | The loop over the districts computes the locality. |
| IdnesUrl.WriteUrl | app/idnes_url.py:160-206 | The appending loops compute the URL. |

## Left out

- AdminOAuthRuns.GrantTracesToConsent: the redirect target with its query and the password check of the login are not modelled; a login is an optional admin id.
- RateLimit.WindowBound: the clock is read before the lock is taken; a clock that is nondecreasing in lock order is assumed.
- StaleCacheRuns.BusyExactlyWhileRefreshing: threads killed by the interpreter are not modelled; a thread start can fail.
- LiveShare.CallsShare: deep copies of results and the waiting of callers are not modelled; calls with ttl of zero or less are answered directly and counted nowhere, as in the source.
- FilterBridgeLaws.BezrealitkyRoundTrip: assumes of the locality folding only that it does not take a locality of the table for the country; the explanatory notes are not modelled.
- CatalogSnap.CoverageAfterDelta: one build or delta reads one state of the live table; timestamps are numbers in their string order.
- AgentClaims.ApprovalTracesBack: codes are drawn distinct; stripping and case folding of codes and e-mails has already been done.
- StripTags.StripTags: HTML unescaping behind the scan is not modelled.
- Pagination.FetchAllIsComplete: retries, blocking and parsing of a page are part of the server function.
- Cms.NextKeepsOk: steps are taken one after another; the source takes no lock around its read and write. Statistics, blocks and the remaining text fields are one opaque text.
- EnvFile.CommentsSurvive: a break in a setting can add lines that read as comments; what they are is not stated.
- CatalogMatch.WideningKeepsMatchesExactly: how a listing's offer and kind are read from its text is not modelled.
- CatalogExtra.ExtraWidensExactly: a listing's extras are given as their case-folded JSON text, comma-separated choices as lists.
- BezrealitkyUrl.ParseOfBuildIsCanonical: text is its UTF-8 bytes, extras and flags are sets, map areas are the text they are written as; integers with spaces or underscores and week dates are not read; what a text loses at its ends is a parameter.
- IdnesMarks.ParseOfBuildIsCanonicalExactly: a locality with an equals sign behind its mark assigns parameters itself, which decides what comes back (AssignedExample); floor bounds, which the URL does not carry, and integers with spaces or underscores are left out.
- IdnesUrl.LocalitySurvivesExactly: assumes that the slug of "praha" is not a name of the country.
- The MCP OAuth server of app/mcp_oauth.py apart from the claims: its code exchange is a simpler form of the admin one.
- Bazoš, Annonce and the other portals: their parsers are tied to foreign markup.
- Nationwide Bazoš URLs: without a locality they parse to a default one.
- app/localities.py normalize_filters: list packing without a further obligation.
- SQL reports, dashboards, e-mail, payments, maps and rendering: reporting and remote behaviour.
