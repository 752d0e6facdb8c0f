# OpenLinker: verified model of its stateful cores

This Dafny project models the parts of OpenLinker whose correctness spans several functions, statements or
requests, and proves what their code and comments promise. Where the code does not keep a promise, the exact
condition under which it does is proved, with the failing family on the other side of an if-and-only-if.

| file | models |
|---|---|
| `RecursiveQuery.dfy` | the database's `WITH RECURSIVE ... UNION` evaluation, against reachability by paths |
| `TruncateTables.dfy` | the integration-test reset: cascade closure, memo, probe, one truncate |
| `RefreshTokens.dfy` | refresh-token rotation, chain walk, replay detection |
| `CookieJar.dfy` | the browser's cookie store after RFC 6265, sections 5.1.3, 5.1.4, 5.3 and 5.4 |
| `AuthCookies.dfy` | the Set-Cookie sequences, over jars left behind by older versions of the code |
| `AuthController.dfy` | login, refresh and logout: rotation and cookies together, whole sessions |
| `PromoteVariant.dfy` | migration 1788000000000: variant ids re-prefixed over four tables, and back |
| `NumberingRoutes.dfy` | migration 1821000000000: series assignments become routes, and back |
| `RoutingAxes.dfy` | migration 1824000000000: two partial unique indexes become one COALESCE index |
| `InventoryBackfill.dfy` | migrations 1799000000003 and 1799000000004: stock rows re-keyed, orphans deleted |
| `CategoryCache.dfy` | the 24-hour category cache, over a fixed and over a changing taxonomy |
| `OutboxDelivery.dfy` | the manual delivery pass with a failure possible in every call |
| `RateLimiter.dfy` | the two per-IP counters over a TTL cache |
| `EmailConfirmation.dfy` | single-use confirmation tokens under every interleaving of requests |
| `Wrappers.dfy` | `Option` and the members of a sequence |

## How the model reads the code

- A table is a sequence or a map of rows and a SQL statement is one step. A unique index, a primary key and a
  foreign key are predicates; a statement that would break one rolls the transaction back.
- Classes hold the state the code updates in place. Every method is tied to a function of the old state; the
  lemmas are about that function and about runs of it.
- Clocks, random tokens, environment settings, upstream answers, the outcome of a send and the failure of a call
  are parameters. SHA-256 is an injective constructor; random values are fresh for their table.
- A `LIKE` pattern is matched as SQL does, underscores included. A NULL in a unique index is distinct from every
  other NULL.

## What turned out not to hold as documented

- The fast reset matches the old loop on every database exactly when no foreign key leads the cascade out of the
  visible schema (`ResetMatchesOldLoopIff`).
- Migration 1788 renames 'Product' mappings only. An 'Offer' mapping stores the variant's internal id and is left
  pointing at an id that no longer exists (`MappingKeepsItsVariantIff`, `OfferMappingLosesItsVariant`).
- Its `down` says `jsonb_set` restores the marker on rows that never had it; without a metadata object it does not
  (`RevertedRowIsFlaggedIff`).
- Migration 1821 round-trips its routes but not its stamps: a main series used as a fallback comes back stamped
  'corrected' (`StampsSurviveTheRoundTripIff`).
- The rate limiter calls itself a fixed window; every pass restarts the timer, so it is stricter, exactly when the
  oldest of the last `limit` passes is a window old (`DiffersFromFixedWindowIff`, `SteadyClientIsRefused`).
- The delivery pass ignores a database call that answers false, so rows can stay in `processing`: after a lost status
  write on the ordinary exit, after a failed SELECT of the claim on the "no events due" exit, and after a failed
  release. `FinalHeldIds` says exactly which rows, `NothingLeftIff` exactly when there are none, in terms of the table and
  the failures met.
- The category cache's `setHours` counts wall-clock hours, so a level lives 24 hours plus any daylight-saving shift
  (`LevelServedIff`); the documented 24 hours hold exactly when that shift is not positive (`WithinADayIff`). It also
  filters by a bare `null`; whether root reads are right depends on how the ORM renders it in the look-up
  (`ReadReturnsTheChildren`, `DroppedFilterRootReadIff`).
- Logout with a token that was already rotated clears the cookies but leaves its successor live
  (`LogoutEndsTheChainIff`); a refresh whose answer is lost ends the session (`LostAnswerEndsTheSession`).
- Overlapping resends leave two live confirmation links (`OverlappingResendsReachTwoSenders`,
  `TwoSendersTwoLiveTokens`); the newest is the only one exactly under the conditions of `NewestLinkIsTheOnlyOneIff`
  and `NeverTwoLinksIff`.
- A link works once, but an account can be confirmed twice, because the activation reads the status and then writes
  it unconditionally (`TwoLinksConfirmTwice`, `ConfirmedOnceIff`); a deactivation in between is lost
  (`WriteDiscardsWhatCameBetween`).

## Model

| member | source | states |
|---|---|---|
| RecursiveQuery.Evaluate | libs/test-kit/src/harness.ts:115-130 | the working-table loop terminates on any graph, cyclic or not, and returns exactly what paths from the roots reach |
| RecursiveQuery.ReachIsLeast | libs/test-kit/src/harness.ts:80-94 | that result is the least set containing the roots and closed under the edges |
| TruncateTables.JoinInjective | libs/test-kit/src/harness.ts:108-111 | on checked names the memo key determines the list of tables |
| TruncateTables.JoinCollidesOnUncheckedNames | libs/test-kit/src/harness.ts:57-77 | without the identifier check two lists share a key |
| TruncateTables.ClosureUnique | libs/test-kit/src/harness.ts:132-138 | the caller's list followed by the sorted extra dependents is one definite list |
| TruncateTables.TestKit.ResolveCascadeClosure | libs/test-kit/src/harness.ts:104-145 | a hit or a walk gives the closure of exactly these tables; an unsafe dependent is refused and not cached; the memo stays right |
| TruncateTables.TestKit.TruncateTables | libs/test-kit/src/harness.ts:147-203 | completes or refuses for a stated reason without touching a row; when done, every dependent along foreign keys of a listed table inside the schema is empty, every table outside a dependency-closed set keeps its rows, and no plain name is ever refused |
| TruncateTables.OldLoopOutcome | libs/test-kit/src/harness.ts:80-94 | the replaced loop empties the same chains of dependents and keeps the same tables, by the foreign keys alone |
| TruncateTables.SafeNameIff | libs/test-kit/src/harness.ts:57-77 | the accepted names are those of ASCII letters, digits and underscores that do not start with a digit |
| TruncateTables.BeforeIff | libs/test-kit/src/harness.ts:132-140 | dependents are sorted by code unit |
| TruncateTables.TruncateEachIsOneTruncate | libs/test-kit/src/harness.ts:85-94 | one cascading truncate per table equals one cascading truncate of them all |
| TruncateTables.TruncateEachOrderAndFrame | libs/test-kit/src/harness.ts:85-94 | order and duplicates are irrelevant, listed tables end empty, tables outside the cascade are untouched |
| TruncateTables.FastResetIsOldLoop | libs/test-kit/src/harness.ts:162-171 | truncating only the dirty tables of the closure reaches the old loop's state |
| TruncateTables.ResetMatchesOldLoopIff | libs/test-kit/src/harness.ts:96-102 | it does so for all contents if and only if the cascade stays inside the visible schema |
| RefreshTokens.RefreshTokenService.Rotate | apps/api/src/auth/refresh-token.service.ts:50-77 | by the columns of the presented row: unknown, replayed, expired, or revoked and followed by one row of the same user that lives fourteen days |
| RefreshTokens.RefreshTokenService.Issue | apps/api/src/auth/refresh-token.service.ts:46-48 | appends one live row of that user, rotated from nothing, for fourteen days |
| RefreshTokens.RefreshTokenService.Revoke | apps/api/src/auth/refresh-token.service.ts:72-77 | revokes exactly the unrevoked row with the token's hash |
| RefreshTokens.CrashPointRows | apps/api/src/auth/refresh-token.service.ts:50-77 | a crash between the two writes leaves the row revoked and nothing after it |
| RefreshTokens.RefreshTokenRepository.RevokeChain | libs/core/src/users/infrastructure/persistence/repositories/refresh-token.repository.ts:65-91 | both recursive walks, then one update of unrevoked rows |
| RefreshTokens.RunKeepsInv | apps/api/src/auth/refresh-token.service.ts:46-97 | in every run, with crashes between the two writes of a rotation, links form disjoint paths, spent tokens are revoked, rows and links are stable |
| RefreshTokens.OneLiveTokenPerChain | apps/api/src/auth/refresh-token.service.ts:9-15 | a chain has at most one unrevoked token and it is the tail |
| RefreshTokens.WalkIsTheChain | libs/core/src/users/infrastructure/persistence/repositories/refresh-token.repository.ts:66-90 | descendants plus ancestors of any row are exactly its rotation chain |
| RefreshTokens.ReplayWipesTheChain | apps/api/src/auth/refresh-token.service.ts:55-58 | a replay revokes every row of that chain with its reason, keeps already revoked rows, and changes no other chain |
| RefreshTokens.ReplayInRows | apps/api/src/auth/refresh-token.service.ts:50-63 | every row linked to the replayed one through rotated-from ids is revoked, other users' rows stay |
| RefreshTokens.ClosedChainStaysClosed | apps/api/src/auth/refresh-token.service.ts:50-97 | no later run revives a chain without a usable token or adds a row to it |
| CookieJar.OnlyCookieIsRead | apps/api/src/auth/auth.cookies.ts:116-121 | a cookie alone in its name is what every permitted reader gets, whatever else is in the jar and whatever the send order |
| CookieJar.PutMembers | apps/api/src/auth/auth.cookies.ts:110-113 | storing keeps one cookie per (name, domain, path) and drops only the overwritten one |
| CookieJar.ReceiveAllFrame | apps/api/src/auth/auth.cookies.ts:102-127 | headers of one name leave the cookies of all others as they were |
| CookieJar.DomainMatchIff | apps/api/src/auth/auth.cookies.ts:33-41 | section 5.1.3 of RFC 6265: the host itself or a name below the domain |
| CookieJar.PathMatchIff | apps/api/src/auth/auth.cookies.ts:21-29 | section 5.1.4: the path itself or anything below it |
| CookieJar.PutKeepsPlace | apps/api/src/auth/auth.cookies.ts:131-138 | section 5.3: an overwritten cookie keeps its place, a new one goes last |
| CookieJar.SendOrderIsByPath | apps/api/src/auth/auth.cookies.ts:131-138 | section 5.4: longer paths first, equal lengths in order of creation |
| AuthCookies.SetRefreshCookie | apps/api/src/auth/auth.cookies.ts:102-127 | the headers appended, in order |
| AuthCookies.SetCsrfCookie | apps/api/src/auth/auth.cookies.ts:129-147 | the headers appended and the value returned |
| AuthCookies.ClearAuthCookies | apps/api/src/auth/auth.cookies.ts:149-170 | the clearing headers appended |
| AuthCookies.CookieDomainUnsetIff | apps/api/src/auth/auth.cookies.ts:69-77 | the Domain is unset exactly for a missing or blank setting and is otherwise free of surrounding blanks |
| AuthCookies.CookieDomainIsTheSetting | apps/api/src/auth/auth.cookies.ts:69-77 | the Domain is the setting without the blanks before and after it |
| AuthCookies.ReachedTidy | apps/api/src/auth/auth.cookies.ts:31-33 | after any history of versions and one switch to a Domain, our cookies sit at three known scopes, one each |
| AuthCookies.IssueCollapses | apps/api/src/auth/auth.cookies.ts:109-127 | from such a jar the set sequence leaves exactly the new cookie of its name |
| AuthCookies.CsrfMirrorsIff | apps/api/src/auth/auth.cookies.ts:35-41 | the API reads the new ol_csrf on every /v1/auth request; the SPA reads the same at any path if and only if both hosts share the scope |
| AuthCookies.RefreshIsTheOnlyOne | apps/api/src/auth/auth.cookies.ts:21-29 | one ol_refresh remains, sent on every /v1/auth request, invisible to scripts; other cookies unchanged |
| AuthCookies.RefreshCookieScope | apps/api/src/auth/auth.cookies.ts:82-118 | exactly who reads the new ol_refresh: /v1/auth and below, hosts in scope, no script, in production only https |
| AuthCookies.CsrfCookieScope | apps/api/src/auth/auth.cookies.ts:95-147 | exactly who reads the new ol_csrf: every path of hosts in scope, scripts too, in production only https |
| AuthCookies.LegacyCopiesGo | apps/api/src/auth/auth.cookies.ts:102-147 | from any jar the setters remove the API host's copy at /auth |
| AuthCookies.SessionCookiesReachTheApi | apps/api/src/auth/auth.controller.ts:293-294 | the two setters of one response do not disturb each other |
| AuthCookies.ClearRemovesEveryCopy | apps/api/src/auth/auth.cookies.ts:149-170 | logout leaves no cookie of either name and touches no other |
| AuthCookies.LogoutKeepsOnlyOthers | apps/api/src/auth/auth.cookies.ts:149-170 | what is left after clearing is exactly what had another name |
| AuthCookies.LogoutDropsLegacyCopies | apps/api/src/auth/auth.cookies.ts:149-170 | from any jar clearing removes both copies at /auth |
| AuthCookies.WithoutCleanupTheServerReadsStale | apps/api/src/auth/auth.cookies.ts:110-121 | why the host-only clear is needed: without it the API reads the stale value and the SPA the new one |
| AuthController.AuthController.Refresh | apps/api/src/auth/auth.controller.ts:267-303 | 401 with nothing changed for a missing or unknown cookie; for a known one status, headers, signed-in user and table by the columns of its row, 200 exactly for a live token, a found user and a signed answer |
| AuthController.AuthController.Login | apps/api/src/auth/auth.controller.ts:138-142 | a new token and both cookies |
| AuthController.AuthController.Logout | apps/api/src/auth/auth.controller.ts:312-321 | revocation if a cookie came, cookies cleared always |
| AuthController.RefreshLeavesAtMostOneLive | apps/api/src/auth/auth.controller.ts:271-302 | for a known token, 401 if and only if its chain has no live token; any other answer leaves exactly the new one, and the browser misses it exactly when the user lookup failed |
| AuthController.RefusalIsFinal | apps/api/src/auth/auth.controller.ts:276-302 | after a 401 no later run accepts or extends that chain |
| AuthController.OkRefreshReachesTheBrowser | apps/api/src/auth/auth.controller.ts:291-295 | the token the next /v1/auth request carries is the chain's one live token |
| AuthController.LogoutEndsTheChainIff | apps/api/src/auth/auth.controller.ts:312-321 | logout ends the chain exactly when the presented token was not already revoked, or the chain was dead |
| AuthController.LoginStartsAChain | apps/api/src/auth/auth.controller.ts:138-142 | login begins a chain of its own with one live token |
| AuthController.LostAnswerEndsTheSession | apps/api/src/auth/auth.controller.ts:276-285 | retrying with the old cookie after a lost answer is refused and kills the chain |
| AuthController.HonestSessionStaysLoggedIn | apps/api/src/auth/auth.controller.ts:267-303 | a browser that returns its newest cookie in time is answered 200 every time, whatever others do with their tokens |
| AuthController.SessionStaysLoggedInIff | apps/api/src/auth/auth.controller.ts:267-303 | and it is answered 200 at every visit exactly when none is late and no one else rotates, logs out or replays against its live token |
| PromoteVariant.Tables.Up | apps/api/src/migrations/1788000000000-promote-product-variant-entity-type.ts:33-126 | commits exactly when the rewritten tables meet their constraints, else leaves all four untouched |
| PromoteVariant.Tables.Down | apps/api/src/migrations/1788000000000-promote-product-variant-entity-type.ts:128-221 | the collision check first, then as `up` |
| PromoteVariant.UpMappingRow | apps/api/src/migrations/1788000000000-promote-product-variant-entity-type.ts:33-126 | which mapping rows change and to what, no other column touched |
| PromoteVariant.DownMappingRow | apps/api/src/migrations/1788000000000-promote-product-variant-entity-type.ts:128-221 | the same for down, with what becomes of the marker |
| PromoteVariant.VariantRow | apps/api/src/migrations/1788000000000-promote-product-variant-entity-type.ts:55-64 | variant ids change exactly as the mapping rows name them |
| PromoteVariant.ItemRow | apps/api/src/migrations/1788000000000-promote-product-variant-entity-type.ts:66-72 | so do inventory references, nothing else in the row |
| PromoteVariant.OfferRow | apps/api/src/migrations/1788000000000-promote-product-variant-entity-type.ts:74-80 | so do offer-creation references |
| PromoteVariant.DifferentExternalsNeverClash | apps/api/src/migrations/1788000000000-promote-product-variant-entity-type.ts:128-160 | rows of different platforms, connections or external ids never clash |
| PromoteVariant.NewIdsAreNotOldIds | apps/api/src/migrations/1788000000000-promote-product-variant-entity-type.ts:48-52 | no rewritten id matches the gate of the same rewrite, so row order cannot matter |
| PromoteVariant.RenamingInjective | apps/api/src/migrations/1788000000000-promote-product-variant-entity-type.ts:43-53 | on documented ids, references are equal after the rename exactly when before |
| PromoteVariant.UpPreservesReferences | apps/api/src/migrations/1788000000000-promote-product-variant-entity-type.ts:55-92 | on well-formed data all constraints hold again and every inventory, offer-record and variant-mapping reference keeps its row |
| PromoteVariant.UpCommitsIff | apps/api/src/migrations/1788000000000-promote-product-variant-entity-type.ts:55-125 | from any consistent state, the two clashes that make it fail, and no other |
| PromoteVariant.MappingKeepsItsVariantIff | apps/api/src/migrations/1788000000000-promote-product-variant-entity-type.ts:83-92 | which mapping rows still name their variant afterwards |
| PromoteVariant.OfferMappingLosesItsVariant | apps/api/src/migrations/1788000000000-promote-product-variant-entity-type.ts:83-92 | a concrete offer mapping that dangles |
| PromoteVariant.DownUndoesUp | apps/api/src/migrations/1788000000000-promote-product-variant-entity-type.ts:128-221 | after `up` the check is silent and all four tables come back, up to the spelling of the marker |
| PromoteVariant.DownKeepsMappingKey | apps/api/src/migrations/1788000000000-promote-product-variant-entity-type.ts:138-162 | a silent check suffices for the mapping unique key |
| PromoteVariant.DownCommitsIff | apps/api/src/migrations/1788000000000-promote-product-variant-entity-type.ts:164-220 | the one clash left once the check is silent |
| PromoteVariant.RevertedRowIsFlaggedIff | apps/api/src/migrations/1788000000000-promote-product-variant-entity-type.ts:200-214 | a reverted row carries the marker if and only if it had a metadata object |
| NumberingRoutes.NumberingTables.Up | apps/api/src/migrations/1821000000000-numbering-per-document-type-routing.ts:34-111 | the new state, with series references intact |
| NumberingRoutes.NumberingTables.Down | apps/api/src/migrations/1821000000000-numbering-per-document-type-routing.ts:113-170 | the new state, with series references intact |
| NumberingRoutes.UpRoute | apps/api/src/migrations/1821000000000-numbering-per-document-type-routing.ts:79-101 | existing routes win; each assignment adds its two defaults |
| NumberingRoutes.UpSeries | apps/api/src/migrations/1821000000000-numbering-per-document-type-routing.ts:60-110 | which series are stamped as corrected |
| NumberingRoutes.DownAssignment | apps/api/src/migrations/1821000000000-numbering-per-document-type-routing.ts:135-154 | existing assignments win; each default invoice route gives one |
| NumberingRoutes.UpKeepsEffectiveSeries | apps/api/src/migrations/1821000000000-numbering-per-document-type-routing.ts:79-100 | every document of every connection keeps its series, for any register |
| NumberingRoutes.DownKeepsDefaultsIff | apps/api/src/migrations/1821000000000-numbering-per-document-type-routing.ts:135-154 | invoices always keep their default series; corrections exactly when both default routes exist or neither |
| NumberingRoutes.DownAfterUp | apps/api/src/migrations/1821000000000-numbering-per-document-type-routing.ts:135-154 | assignments come back with the fallback made explicit and the same effective series |
| NumberingRoutes.UpAfterDownGivesSameRoutes | apps/api/src/migrations/1821000000000-numbering-per-document-type-routing.ts:79-100 | a second `up` rebuilds the same routes |
| NumberingRoutes.StampsSurviveTheRoundTripIff | apps/api/src/migrations/1821000000000-numbering-per-document-type-routing.ts:101-107 | the document-type stamps come back exactly when every fallback series is also some correction series |
| RoutingAxes.RoutesTable.Up | apps/api/src/migrations/1824000000000-numbering-routing-axes.ts:37-71 | from any indexes, commits exactly when the new index is there or admits the rows, and keeps every index true |
| RoutingAxes.RoutesTable.Down | apps/api/src/migrations/1824000000000-numbering-routing-axes.ts:73-101 | from any indexes, commits exactly when each old index is there or admits the rows, then drops the axes |
| RoutingAxes.IndexesReject | apps/api/src/migrations/1824000000000-numbering-routing-axes.ts:46-63 | what each of the three indexes rejects, column by column |
| RoutingAxes.CoalesceIndexIsTheKey | apps/api/src/migrations/1824000000000-numbering-routing-axes.ts:18-24 | without empty strings the index is exactly the five-part key with NULL equal to NULL |
| RoutingAxes.EmptyAxisBreaksTheIndex | apps/api/src/migrations/1824000000000-numbering-routing-axes.ts:20-22 | any row with an empty axis has a twin the index wrongly rejects |
| RoutingAxes.UpReplacesTheIndexesIff | apps/api/src/migrations/1824000000000-numbering-routing-axes.ts:46-63 | with the new axes unset it accepts what the two old indexes accepted, except NULL beside an empty register |
| RoutingAxes.DownSucceedsIff | apps/api/src/migrations/1824000000000-numbering-routing-axes.ts:81-93 | the old indexes can return exactly when no two routes differ only in currency or source |
| RoutingAxes.DownUndoesUp | apps/api/src/migrations/1824000000000-numbering-routing-axes.ts:73-101 | on a table that gained no axis values the round trip is the identity |
| InventoryBackfill.InventoryTable.Backfill | apps/api/src/migrations/1799000000003-backfill-inventory-variant-id.ts:32-51 | both partial unique indexes still hold, the foreign key is kept, and so is that variants belong to their row's product |
| InventoryBackfill.BackfillRow | apps/api/src/migrations/1799000000003-backfill-inventory-variant-id.ts:32-51 | each row: which take the product's one variant, all others unchanged |
| InventoryBackfill.RevertRow | apps/api/src/migrations/1799000000003-backfill-inventory-variant-id.ts:53-72 | exactly the rows of an only variant go back to product level |
| InventoryBackfill.CleanupRow | apps/api/src/migrations/1799000000004-cleanup-multivariant-product-level-inventory.ts:24-35 | exactly the product-level rows of products with two variants are deleted |
| InventoryBackfill.IndexesHoldIff | apps/api/src/migrations/1767555200000-change-product-ids-to-varchar.ts:77-85 | the two partial unique indexes, column by column |
| InventoryBackfill.BackfillLeavesOnlyShadowedRows | apps/api/src/migrations/1799000000003-backfill-inventory-variant-id.ts:32-51 | only NULL variant columns change; a single-variant product keeps a product-level row exactly where a variant row stood |
| InventoryBackfill.BackfillConservesStock | apps/api/src/migrations/1799000000003-backfill-inventory-variant-id.ts:15-20 | stock per product is conserved, and all of it becomes readable by variant if there was no variant row |
| InventoryBackfill.RevertSucceedsIff | apps/api/src/migrations/1799000000003-backfill-inventory-variant-id.ts:53-71 | `down` violates an index exactly when a product-level and a variant row share a known location |
| InventoryBackfill.RevertUndoesBackfillIff | apps/api/src/migrations/1799000000003-backfill-inventory-variant-id.ts:54-58 | `down` restores the table exactly when no single-variant product had a variant row before |
| InventoryBackfill.CleanupKeepsOthers | apps/api/src/migrations/1799000000004-cleanup-multivariant-product-level-inventory.ts:24-35 | variant stock, and the stock of products without several variants, is untouched |
| InventoryBackfill.WhatIsLeftAtProductLevel | apps/api/src/migrations/1799000000004-cleanup-multivariant-product-level-inventory.ts:5-13 | after both migrations a product-level row has no variant, or one with a row at the same location |
| CategoryCache.CategoriesCacheService.GetAllegroCategories | apps/api/src/categories/categories-cache.service.ts:47-77 | hit, miss, stale level, unsupported adapter, upstream error and empty level as one function |
| CategoryCache.CategoriesCacheService.FindCached | apps/api/src/categories/categories-cache.service.ts:147-170 | one stale row empties the answer and deletes what the delete's own filter selects |
| CategoryCache.HitInRows | apps/api/src/categories/categories-cache.service.ts:47-54 | a fresh level is answered from the table, which stays |
| CategoryCache.MissInRows | apps/api/src/categories/categories-cache.service.ts:56-191 | any other level is deleted and stored anew, no other row changes |
| CategoryCache.RunKeepsWholeLevels | apps/api/src/categories/categories-cache.service.ts:147-191 | over a fixed tree, with upstream failures at any time, every cached level is absent or complete with one fetch time, in every run |
| CategoryCache.ReadReturnsTheChildren | apps/api/src/categories/categories-cache.service.ts:47-77 | then every read returns exactly the children of the asked parent, or the failure of the upstream call it needed |
| CategoryCache.DroppedFilterRootReadIff | apps/api/src/categories/categories-cache.service.ts:155-160 | when a root read is right if the look-up drops the null filter, whatever the delete does with it |
| CategoryCache.ReadReturnsRecentChildren | apps/api/src/categories/categories-cache.service.ts:47-77 | over a changing tree every returned row was a child of that parent at some moment up to the read and at most 24 hours plus the clock shift before it |
| CategoryCache.LevelServedIff | apps/api/src/categories/categories-cache.service.ts:151-152 | a level is served exactly that long |
| CategoryCache.WithinADayIff | apps/api/src/categories/categories-cache.service.ts:151-160 | everything read was upstream within 24 hours, for every upstream and run, exactly when the clock shift is not positive |
| OutboxDelivery.DeliverOne | apps/prestashop-module/openlinker/openlinker.php:704-775 | the row and counters after one delivery, for every combination of failures |
| OutboxDelivery.AttemptWithoutFaults | apps/prestashop-module/openlinker/classes/OutboxRepository.php:664-785 | delivered, failed at the maximum, or pending with one more attempt |
| OutboxDelivery.AttemptReleasesIff | apps/prestashop-module/openlinker/openlinker.php:715-775 | a delivery leaves its row in `processing` exactly when its status writes were lost, whether or not it ends the loop |
| OutboxDelivery.AcceptedIsDeliveredIff | apps/prestashop-module/openlinker/openlinker.php:715-755 | when an event the endpoint accepted is recorded as delivered |
| OutboxDelivery.PickOldest | apps/prestashop-module/openlinker/classes/OutboxRepository.php:573-604 | the claim takes distinct pending rows, oldest first, as many as the batch allows, and leaves no older one behind |
| OutboxDelivery.ClaimBatch | apps/prestashop-module/openlinker/openlinker.php:652-685 | the requeued table with exactly its oldest pending rows claimed, nothing else changed; which exit each failure of UPDATE or SELECT takes |
| OutboxDelivery.DeliverBatch | apps/prestashop-module/openlinker/openlinker.php:693-776 | where the loop stops and why, what it counts, and the table it leaves, as functions of the failures met |
| OutboxDelivery.StopIsOneReason | apps/prestashop-module/openlinker/openlinker.php:693-776 | the loop runs to the end unless a delivery lacks budget or a second write raises, and stops at the first such delivery |
| OutboxDelivery.WorkedRow | apps/prestashop-module/openlinker/openlinker.php:704-775 | each attempted row is its own delivery applied to the claimed row, every other row is untouched |
| OutboxDelivery.ProcessManualDelivery | apps/prestashop-module/openlinker/openlinker.php:623-875 | claimed rows, report and final table of every pass as functions of the old table and the failures met; delivered, failed and not overdue rows of other runs are untouched, the claim takes the oldest |
| OutboxDelivery.ExitIs | apps/prestashop-module/openlinker/openlinker.php:680-875 | when something is sent, and which exit is taken, by the calls that raised |
| OutboxDelivery.ReportAddsUp | apps/prestashop-module/openlinker/openlinker.php:778-820 | delivered + failed = attempted; attempted + skipped = claimed plus lost writes on a budget stop |
| OutboxDelivery.FinalRow | apps/prestashop-module/openlinker/openlinker.php:623-875 | the final table row by row: attempted, claimed but not reached, not claimed |
| OutboxDelivery.ClaimedRow | apps/prestashop-module/openlinker/openlinker.php:693-776 | a claimed row not reached ends as it was, pending or still held; one delivered keeps its age and is handled by its own delivery |
| OutboxDelivery.FinalHeldIds | apps/prestashop-module/openlinker/openlinker.php:778-875 | which rows stay in `processing` under the run: none after a release, else those not attempted and the lost writes |
| OutboxDelivery.NothingLeftIff | apps/prestashop-module/openlinker/openlinker.php:778-875 | that is none exactly when, for the number of rows claimed, the failures met bring about a release or let every row be attempted and written |
| OutboxDelivery.NothingLeftWithoutSilentFailures | apps/prestashop-module/openlinker/openlinker.php:822-875 | none on any exit if calls succeed or raise, and the final cleanup works |
| OutboxDelivery.OutboxRepository.RequeueEventsByRunId | apps/prestashop-module/openlinker/classes/OutboxRepository.php:487-502 | releases exactly the rows held under the run id and counts them, or nothing if the UPDATE failed |
| RateLimiter.EnforceRateLimit | apps/api/src/auth/registration.service.ts:128-145 | one check as a function of the cache |
| RateLimiter.PassesIff | apps/api/src/auth/registration.service.ts:138-144 | a request passes exactly when the running burst is below the limit |
| RateLimiter.NoShortSpanHoldsMoreThanLimit | apps/api/src/auth/registration.service.ts:121-127 | in every run limit + 1 passes under one key span at least the window |
| RateLimiter.OtherKeysDoNotMatter | apps/api/src/auth/registration.service.ts:138-144 | outcomes under a key depend on the requests under that key alone |
| RateLimiter.KeysDistinct | apps/api/src/auth/email-confirmation.service.ts:221-222 | two addresses, or the two endpoints, never share a key |
| RateLimiter.SteadyClientIsRefused | apps/api/src/auth/email-confirmation.service.ts:206-213 | not a fixed window: a slow steady client is refused |
| RateLimiter.DiffersFromFixedWindowIff | apps/api/src/auth/email-confirmation.service.ts:206-213 | exactly which refusals a fixed window over the same passes would not make; it makes no pass a fixed window would not |
| EmailConfirmation.EmailConfirmationService.ConfirmEmail | apps/api/src/auth/email-confirmation.service.ts:129-175 | succeeds exactly for a live token of a pending user; what it changes otherwise |
| EmailConfirmation.EmailConfirmationService.ResendConfirmation | apps/api/src/auth/email-confirmation.service.ts:183-200 | undisturbed, the fresh token is the user's only unused one and other users' tokens stay |
| EmailConfirmation.TokenRepository.ConsumeToken | libs/core/src/users/infrastructure/persistence/repositories/email-confirmation-token.repository.ts:36-56 | the atomic conditional update |
| EmailConfirmation.EveryInterleavingIsSingleUse | apps/api/src/auth/email-confirmation.service.ts:118-128 | in every interleaving a token is accepted at most once and reaches the activation at most once |
| EmailConfirmation.ConfirmedOnceIff | apps/api/src/users/user-management.service.ts:232-239 | in every schedule accounts are confirmed at most once exactly when no activation writes between another's status read and write |
| EmailConfirmation.TwoLinksConfirmTwice | apps/api/src/users/user-management.service.ts:232-239 | any two live links of a pending account can confirm it twice |
| EmailConfirmation.WriteDiscardsWhatCameBetween | libs/core/src/users/infrastructure/persistence/repositories/user.repository.ts:84-86 | after the unconditional write the account is active whatever was decided since the read |
| EmailConfirmation.InvalidationIsFinal | apps/api/src/auth/email-confirmation.service.ts:193-199 | a token saved before a resend's invalidation is never accepted after it |
| EmailConfirmation.UnusedIff | apps/api/src/auth/email-confirmation.service.ts:193-200 | in every schedule the unused links are those issued and not ended since |
| EmailConfirmation.LinkIsAcceptedIff | apps/api/src/auth/email-confirmation.service.ts:129-144 | in every schedule a link is accepted exactly until its expiry unless ended since it was issued |
| EmailConfirmation.NoLinksAfterConfirmation | apps/api/src/auth/email-confirmation.service.ts:183-192 | an account past confirmation gets no new link in any schedule |
| EmailConfirmation.NewestLinkIsTheOnlyOneIff | apps/api/src/auth/email-confirmation.service.ts:193-200 | after a resend's save its link is the only unused one exactly when every link others issued since its invalidation was ended again |
| EmailConfirmation.NeverTwoLinksIff | apps/api/src/auth/email-confirmation.service.ts:193-200 | no continuation without a further resend has two unused links exactly when no other request is past its invalidation with its save to come |
| EmailConfirmation.TwoSendersTwoLiveTokens | apps/api/src/auth/email-confirmation.service.ts:198-199 | two requests past their invalidation leave two live tokens |
| EmailConfirmation.OverlappingResendsReachTwoSenders | apps/api/src/auth/email-confirmation.service.ts:177-200 | a run that brings two resends there |

## Left out

- TruncateTables: the memo stores the caller's own array when there are no extra dependents; a caller that changed
  that array later would change the memo. Arrays are values here.
- TruncateTables: one relation per name; the same name in two visible schemas is not modelled.
- RefreshTokens: two concurrent rotations of one token (the service finds and then writes without a lock), and the
  deletion of rows with their user.
- RefreshTokens: one clock reading per call, where the code reads the clock again for each write.
- AuthCookies: SameSite, cookie limits per domain, public suffixes, and changing or removing the Domain once set.
- AuthController: the CSRF guard, password checks, and failures of the token store itself.
- PromoteVariant: the orphan count that `up` logs, and a metadata value that is JSON but not an object.
- NumberingRoutes: timestamps and row ids, and the always-empty register column of a series.
- CategoryCache: concurrent reads, the time the upstream call itself takes, and breadcrumb paths, which have no cache
  here.
- OutboxDelivery: due times (the pass makes every pending row due before it claims), the backoff time of a retry,
  the cleared dedup key, retention, and other runs touching rows this run holds.
- OutboxDelivery: failures of logging.
- RateLimiter: concurrent increments, and limits that do not parse as numbers.
- EmailConfirmation: removal of users with their tokens, mail sending, and the resend's own rate limit, which is in
  RateLimiter.
- The container life cycle of the test harness, the cron delivery path, and the other migrations, which are one
  statement each.
