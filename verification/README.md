# Xelar Notify: a verified model

This project models the parts of Xelar Notify whose correctness is not visible in one function
body, and proves properties of them with Dafny: the single-flight Redis cache, the life of a
Twitch subscription and the cost counters of the Twitch apps, template interpolation over
serialized JSON, the funding and reference counting of notifications, and six smaller state
machines (app token manager, pending-destination store, event dispatch, guild access verdicts,
sessions and logout, roles).

`dafny verify dfyconfig.toml` checks everything.

## How it is modelled

- **Tables** are maps, Redis keys are strings, money and Twitch costs are integers.
- **Services that work step by step** are classes whose methods follow the source's statements
  and loops. Each method is proved equal to a specification function of the old state
  (`SubscriptionDb`, `Dispatch`, `PendingStore`, `GuildAccess`, `Roles`), and the theorems are
  about that function over every run of operations.
- **Protocols that interleave at awaits** (`SingleFlight`, `TokenManager`, `Funding`, `Capacity`,
  `Sessions`) are state machines: one step between two awaits, any number of callers. A step that
  is not enabled changes nothing, so every sequence of steps is an interleaving and a theorem over
  all sequences is a theorem over all interleavings.
- **The outside** (Twitch, Discord, the queue, webhooks, the clock, and the order in which an
  unordered query returns rows) is an argument of the operation that meets it, constrained only
  by what it must satisfy.

| file | models |
|---|---|
| `Json.dfy` | the printer behind `JSON.stringify`, a parser, and their round trip |
| `Interpolation.dfy` | replacing `${word}` in the printed text against substitution in the value |
| `Preview.dfy` | the message a draft becomes, previewed and delivered |
| `SingleFlight.dfy` | `RedisService.getOrSet` |
| `SubscriptionDb.dfy` | tables, remote subscriptions and the operations on them |
| `Outcomes.dfy` | what each of those operations leaves behind, in terms of the tables alone |
| `SubscriptionService.dfy` | the services and the cron, statement by statement |
| `Ledger.dfy`, `Agreement.dfy`, `References.dfy`, `Orphans.dfy`, `Load.dfy` | what those operations keep over every run |
| `Capacity.dfy` | one app's counter when registrations interleave |
| `Funding.dfy` | paying for notifications |
| `TokenManager.dfy` | `TwitchAppTokenManager.getOrRefresh` |
| `PendingStore.dfy` | `PendingDestinationStore` |
| `Dispatch.dfy` | the stream-online handler of the worker |
| `GuildAccess.dfy` | permission bits, access rule, cached verdicts |
| `Sessions.dfy` | sessions, refresh, logout, blacklist |
| `Roles.dfy` | role administration |

## Where the code departs from its evident intent

The model keeps the code as it is; each of these is a lemma.

- A stored `null` is never a cache hit (`SingleFlight.StoredNullIsResolvedAgain`), and a lock that
  expires while it is held admits a second resolver (`SingleFlight.ExpiryLetsASecondResolverRun`).
- A rejected write of a resolved value lets a second resolver succeed without any removal
  (`SingleFlight.RejectedWriteAllowsAnother`).
- An update writes the cost type of a notification and charges nothing; the charge stays with the
  account the creation named. A notification created on credit and updated to another cost type is
  therefore unpaid (`Funding.CreditThenPersonal`, `Funding.SavedChargedIff`).
- A creation that fails after its event was registered leaves an event row without notification and
  with a live subscription, as does a registration that Twitch refuses, there without subscription
  (`Orphans.FailedCreationLeaks`, `Orphans.OrphanOverRunsIff`).
- A rejected app-token registration leaves a row of cost 1 that was never charged, and the cron
  releases cost without zeroing the row. `Ledger.BalancedIffDriftFree` says that counters and rows
  agree exactly when neither happened.
- A delete that Twitch refuses is swallowed and leaves a subscription without a row
  (`Agreement.DeleteAgreesIff`); a status report can put a deactivated row back in force
  (`Agreement.StatusAgreesIff`).
- Interpolated values that need JSON escaping break the payload or change it
  (`Interpolation.ValueArrivesIffPlain`), and an empty value makes the preview differ from the
  delivery (`Preview.PreviewIsDeliveredIff`).
- A payload that cannot be interpolated leaves destinations without a log, and webhook calls already
  made in that dispatch suspend nothing (`Dispatch.OneLogEachIff`, `Dispatch.EveryCallIsLoggedIff`,
  `Dispatch.FailedCallSuspendsIff`).
- A forced token invalidation between the arrival of a token and the settling of its refresh, a
  token that lives a minute or less, and two callers in the first-time lookup each lead to two
  refreshes (`TokenManager.InvalidationInTheGap`, `SecondRefreshIffShortLived`,
  `TwoLookupsTwoRefreshes`). The stored expiry in milliseconds is passed on as seconds, as in the
  code, and no claim relates the two.
- A refresh that is past its session lookup when the session is removed still succeeds
  (`Sessions.RefreshAfterRemovalIff`).
- A verdict resolved before a permission change and stored after it stays in the cache
  (`GuildAccess.LateStoreIsCurrentIff`, `GuildAccess.StaleRun`).
- Replacing placeholders also in object keys can make two keys equal, and the last one counts
  (`Interpolation.InterpolateIsSubst`).

## Model

| member | source | states |
|---|---|---|
| Json.StringRoundTrip | apps/notification-worker/src/interpolation.ts:26-30 | a printed string literal reads back as the same characters, every escape class included (RFC 8259, section 7), whatever text follows |
| Json.EscapeOutcome | apps/notification-worker/src/interpolation.ts:26 | exactly the quotation mark, the backslash and the control characters are escaped, each as RFC 8259, section 7, prescribes |
| Json.ValueRoundTrip | apps/notification-worker/src/interpolation.ts:26-30 | the parser reads back every printed value and stops exactly where it ends, whatever follows that cannot extend a number |
| Json.PrintedIsParsed | apps/notification-worker/src/interpolation.ts:26-30 | parsing what the printer prints gives the value back with the members of each object set one after another, for every JSON value |
| Json.RoundTrip | apps/notification-worker/src/interpolation.ts:26-30 | it is the same value exactly when no object repeats a key |
| Interpolation.ReplaceOfConcat | apps/notification-worker/src/interpolation.ts:26-29 | replacing in a text is replacing in its parts, when the second part cannot continue a placeholder |
| Interpolation.PlaceholderIsReplaced | apps/notification-worker/src/interpolation.ts:26-29 | a dollar sign and braces around letters of either case, digits and underscores, standing anywhere, become the value of that name, or stay if it has none; the text around is treated as if it stood alone |
| Interpolation.NothingElseIsReplaced | apps/notification-worker/src/interpolation.ts:26-29 | a text in which that pattern matches nowhere is left as it is; with the row above this determines the replacement of every text |
| Interpolation.OtherBracesStay | apps/notification-worker/src/interpolation.ts:27 | braces around nothing, or around anything else than a name, stay |
| Interpolation.InnerNameIsReplaced | apps/notification-worker/src/interpolation.ts:27 | the name ends at the first closing brace: a name before it is replaced even if more text and another brace follow |
| Interpolation.ReplaceOfEscape | apps/notification-worker/src/interpolation.ts:26-29 | with values that need no escaping, replacing in the escaped text of a string is escaping the replaced string |
| Interpolation.InterpolateIsSubst | apps/notification-worker/src/interpolation.ts:24-31 | for every payload and all values that need no escaping, interpolation succeeds and is the structural substitution in every string, the last of equal keys counting; it is exactly the substitution iff no two keys of an object become equal |
| Interpolation.InterpolateKeepsShape | apps/notification-worker/src/interpolation.ts:24-31 | a payload that repeats no key has only its string leaves changed, with keys, numbers, shapes and array lengths kept, exactly when the replacement leaves every object key as it is |
| Interpolation.ValueArrivesIffPlain | apps/api/src/modules/notification-payload/services/discord-payload.service.ts:42-48 | a value arrives unchanged exactly when it needs no escaping; any other breaks the payload or alters it |
| Preview.BuildMessagePayload | apps/discord-bot/src/modules/notifications/helpers/build-message-payload.ts:21-41 | filling the payload property by property yields exactly the message of the draft: a field for each non-empty transformed text, and an embed when it has text or an image |
| Preview.MessageOutcome | apps/discord-bot/src/modules/notifications/helpers/build-message-payload.ts:21-41 | property by property: the trimmed and transformed content if not empty, one embed unless title, description and image are all empty, and no other property |
| Preview.EmbedOutcome | apps/discord-bot/src/modules/notifications/helpers/build-message-payload.ts:31-38 | the embed has each of title, description and image exactly when it is not empty, the image as an object with its address, and always the colour |
| Preview.ColorOutcome | apps/discord-bot/src/modules/notifications/helpers/build-message-payload.ts:15-19 | six hexadecimal digits of either case, after trimming and one optional hash, are read as their number, and anything else is the default |
| Preview.TrimOutcome | apps/discord-bot/src/modules/notifications/helpers/build-message-payload.ts:16-29 | trimming takes all white space off both ends and nothing else |
| Preview.DecimalOutcome | apps/discord-bot/src/modules/notifications/helpers/build-message-payload.ts:36 | the colour is written as its decimal digits without a leading zero |
| Preview.PreviewIsDelivered | apps/discord-bot/src/modules/notifications/helpers/preview-vars.ts:12-14 | what is previewed is what is delivered, optional fields included, for every draft, when values are non-empty and need no escaping |
| Preview.PreviewIsDeliveredIff | apps/discord-bot/src/modules/notifications/helpers/build-message-payload.ts:21-41 | every draft is delivered as previewed exactly when all values are non-empty and need no escaping |
| SingleFlight.OneResolverAtATime | libs/redis/src/redis.service.ts:68-100 | in every interleaving in which the lock does not expire while held, at most one resolver runs |
| SingleFlight.ExpiryLetsASecondResolverRun | libs/redis/src/redis.service.ts:79-90 | without that condition the claim fails, from every state in which a resolver runs |
| SingleFlight.SuccessesAreCounted | libs/redis/src/redis.service.ts:84-99 | exact count on every run in which the lock outlives its holders and no resolver yields null: successful resolver calls are the entries removed, plus the results whose write was rejected, plus the entry present or about to be stored |
| SingleFlight.OneSuccessBetweenRemovals | libs/redis/src/redis.service.ts:84-99 | between two removals of the entry at most one resolver call succeeds, plus one for every rejected write of a result |
| SingleFlight.RejectedWriteAllowsAnother | libs/redis/src/redis.service.ts:90-98 | from every state in which a result is about to be stored, a rejected write lets a second call succeed with no removal |
| SingleFlight.StoredNullIsResolvedAgain | libs/redis/src/redis.service.ts:102-106 | a stored null is resolved again by every new caller without any removal |
| SingleFlight.ReturnedValuesAreResolved | libs/redis/src/redis.service.ts:30-106 | every returned value, by whichever of the five ways, was produced by a resolver call or was cached at the start, lock expiry and lost messages included |
| SingleFlight.AnswersHaveCauses | libs/redis/src/redis.service.ts:30-100 | every answer on every run has its cause: a hit of either read, the own result once stored and published, a message received while waiting, or the read after the timer; nothing throws but that read finding nothing or a null, a failing resolver, or a rejected Redis call of the caller |
| SingleFlight.HitOutcome | libs/redis/src/redis.service.ts:74-91 | a hit of the first read answers at once, a hit under the lock with its release, and neither resolves |
| SingleFlight.UndisturbedMiss | libs/redis/src/redis.service.ts:68-100 | an undisturbed miss resolves, caches the result, answers it and frees the lock |
| SingleFlight.FailureReleasesTheLock | libs/redis/src/redis.service.ts:88-99 | whatever fails under the lock, the caller throws and the lock is released |
| SingleFlight.LoserWaits | libs/redis/src/redis.service.ts:82-86 | a miss while the lock is held waits until its own timeout from then |
| SingleFlight.PublishReachesListeners | libs/redis/src/redis.service.ts:95-96 | a publish sends the result to every waiter listening on a subscribed connection, to nobody else, and ends the publisher with it |
| SingleFlight.SubscriberIsReached | libs/redis/src/redis.service.ts:35-41 | a waiter that has subscribed gets the next publish |
| SingleFlight.OnlyPublishesSend | libs/redis/src/redis.service.ts:95 | messages come from publishes only |
| SingleFlight.OnlyStoresFillTheCache | libs/redis/src/redis.service.ts:94 | the entry appears only as a stored result and goes only by removal |
| SingleFlight.DueWaiterEnds | libs/redis/src/redis.service.ts:30-57 | a waiter whose timer is due has ended once its timer and its read are served, with any steps of anybody before, between and after them: lost messages, a publish before its subscription, a shared channel unsubscribed, rejected calls |
| SingleFlight.DueWaiterAnswersFromCache | libs/redis/src/redis.service.ts:45-54 | what a due waiter answers when no message comes first, with anything else going on: the cached value if an entry that is not null is there at its read, and otherwise it throws |
| SingleFlight.WaiterAnswersMessage | libs/redis/src/redis.service.ts:35-43 | a waiter that receives a message first answers exactly that message |
| SingleFlight.NoTimerIsEarly | libs/redis/src/redis.service.ts:45 | on every run no timer fires before its deadline |
| SingleFlight.NoWaiterIsLate | libs/redis/src/redis.service.ts:45-56 | corollary for a clock that serves due timers before it moves: nobody is still waiting after the own timer |
| SingleFlight.TimeCanAdvance | libs/redis/src/redis.service.ts:45-56 | such a clock never stops: from every state exactly two steps for each due waiter free it |
| SubscriptionService.TwitchSubscriptionService.RegisterSubscription | apps/api/src/modules/twitch-subscriptions/services/twitch-subscriptions.service.ts:42-93 | the statements of the registration yield the specified tables and result on every path: user token, fallback, no app, duplicate, refusal |
| Outcomes.RegisterOutcome | apps/api/src/modules/twitch-subscriptions/services/twitch-subscriptions.service.ts:42-93 | without a row for the pair: a linked streamer who allows it, with a user token, an internal app and Twitch's acceptance, gets a free pending row there; everybody else gets a row by an app token with the cost Twitch reports, a refused row of cost 1, or nothing when all apps are full |
| Outcomes.NothingRegistered | apps/api/src/modules/twitch-subscriptions/services/twitch-subscriptions.service.ts:42-93 | with a row for the pair, or for an unknown streamer, nothing is registered |
| Outcomes.ChosenAppOutcome | apps/api/src/modules/twitch-subscriptions/services/twitch-subscriptions.service.ts:494-512 | the app chosen has room, is not internal, and carries the streamer already or is active and undercut by none; none is chosen only if all are full |
| Outcomes.OwnAppFirst | apps/api/src/modules/twitch-subscriptions/services/twitch-subscriptions.service.ts:494-512 | an app that carries the streamer comes first, the least loaded one only when none of those has room |
| Outcomes.LeastLoadedOutcome | apps/api/src/modules/twitch/repositories/twitch-app.repository.ts:73-86 | the least loaded app is active, has room and is undercut by no other such app; there is none only if all active apps are full |
| Outcomes.ExistingEventOutcome | apps/api/src/modules/twitch-subscriptions/services/twitch-subscriptions.service.ts:347-369 | an existing event of the pair is returned and nothing changes |
| SubscriptionService.TwitchSubscriptionService.TryRegisterWithUserToken | apps/api/src/modules/twitch-subscriptions/services/twitch-subscriptions.service.ts:371-423 | a refusal takes the saved row back and leaves the tables as they were; success leaves a free row on the internal app |
| SubscriptionService.TwitchSubscriptionService.MigrateToUserAuthorized | apps/api/src/modules/twitch-subscriptions/services/twitch-subscriptions.service.ts:95-158 | the loop over the streamer's events does to the tables what Outcomes.MigrateOutcome says, event by event, refusals skipped, and gives the old apps their cost back |
| Outcomes.MigrateOutcome | apps/api/src/modules/twitch-subscriptions/services/twitch-subscriptions.service.ts:95-158 | a migration runs exactly for a streamer who allows it, with a user token and an internal app; each row on another app then ends on one internal app, free, pending and under a new subscription if Twitch accepts it, untouched if not, and nothing else changes |
| SubscriptionService.TwitchSubscriptionService.DowngradeUserAuthorized | apps/api/src/modules/twitch-subscriptions/services/twitch-subscriptions.service.ts:160-219 | the loop over the internal-app events is the specified downgrade of each in turn |
| SubscriptionService.TwitchSubscriptionService.DeleteLocalSubscription | apps/api/src/modules/twitch-subscriptions/services/twitch-subscriptions.service.ts:257-282 | reports a missing row, else removes the row, its notifications and its charge, and the remote subscription if Twitch agrees |
| Outcomes.DeleteLocalOutcome | apps/api/src/modules/twitch-subscriptions/services/twitch-subscriptions.service.ts:257-282 | a deleted row takes its notifications and its charge along, and its subscription exactly when Twitch carries the delete out for the app that holds it |
| SubscriptionService.TwitchSubscriptionService.DeleteTwitchOnlySubscription | apps/api/src/modules/twitch-subscriptions/services/twitch-subscriptions.service.ts:284-296 | rejects exactly the subscriptions a local row carries, changes nothing but the remote side, and keeps the agreement of rows and subscriptions |
| Outcomes.DeleteTwitchOnlyOutcome | apps/api/src/modules/twitch-subscriptions/services/twitch-subscriptions.service.ts:284-296 | a subscription goes exactly when no row carries it, the named app holds it and Twitch carries the delete out |
| Outcomes.SmallWrites | apps/api/src/modules/notifications/services/twitch-notifications.service.ts:140-220 | a status report, an update of a notification and a change of a streamer's flags write their fields and nothing else |
| SubscriptionService.TwitchSubscriptionService.GetOrCreate | apps/api/src/modules/twitch-subscriptions/services/twitch-subscriptions.service.ts:347-369 | an existing event is returned unchanged, any other is registered |
| SubscriptionService.TwitchSubscriptionsCron.Partition | apps/api/src/modules/twitch-subscriptions/services/twitch-subscriptions.cron.ts:34-73 | the two nested loops put each stale row on exactly the right list and add up each app's release, or stop at a failing Twitch call |
| SubscriptionService.TwitchSubscriptionsCron.SyncStaleSubscriptions | apps/api/src/modules/twitch-subscriptions/services/twitch-subscriptions.cron.ts:22-87 | the whole synchronisation is the specified change of statuses and counters, and nothing is written when a Twitch call fails |
| Outcomes.CronOutcome | apps/api/src/modules/twitch-subscriptions/services/twitch-subscriptions.cron.ts:22-87 | of the pending stale rows, those Twitch serves or is about to serve are verified, those that failed verification, lost authorization or user, or are unknown to Twitch are revoked if aged and left alone if not; each counter drops by exactly the costs Twitch reports for its rows given up; nothing changes when Twitch fails for one app |
| SubscriptionService.TwitchNotificationsService.CreateNotification | apps/api/src/modules/notifications/services/twitch-notifications.service.ts:32-63 | the event is registered first and stays when the payload or the charge fails afterwards; otherwise a notification for it is saved |
| Outcomes.CreateNoteOutcome | apps/api/src/modules/notifications/services/twitch-notifications.service.ts:32-63 | one active notification is saved exactly when there is an event of the pair and payload and charge go through |
| SubscriptionService.TwitchNotificationsService.DeleteNotification | apps/api/src/modules/notifications/services/twitch-notifications.service.ts:222-273 | an allowed deletion removes the notification and cleans up its subscription, any other changes nothing |
| SubscriptionService.WritesAreCron | apps/api/src/modules/twitch-subscriptions/services/twitch-subscriptions.cron.ts:75-86 | two status updates and one release for each app, in the code's order, give every row its specified status and every app its specified counter |
| Ledger.LedgerOverRuns | apps/api/src/modules/twitch-subscriptions/services/twitch-subscriptions.service.ts:42-282 | on every run each app's counter is the cost of its rows minus the drift, and rows on the internal app cost nothing |
| Ledger.DriftOnlyGrows | apps/api/src/modules/twitch-subscriptions/services/twitch-subscriptions.service.ts:58-75 | the drift never shrinks and is zero exactly when no registration on the app was rejected and the cron released nothing for it |
| Ledger.BalancedIffDriftFree | apps/api/src/modules/twitch-subscriptions/services/twitch-subscriptions.cron.ts:51-86 | from a balanced start an app ends balanced exactly when neither of the two drift events touched it |
| Ledger.CronLedger | apps/api/src/modules/twitch-subscriptions/services/twitch-subscriptions.cron.ts:51-86 | the cron moves no row cost and opens a gap of exactly what it releases |
| Ledger.MigrateRowsLedger | apps/api/src/modules/twitch-subscriptions/services/twitch-subscriptions.service.ts:116-157 | a migration keeps every app's counter equal to the cost of its rows, whatever Twitch refuses |
| Ledger.DowngradeRowsLedger | apps/api/src/modules/twitch-subscriptions/services/twitch-subscriptions.service.ts:171-218 | so does a downgrade |
| Agreement.AgreementOverRuns | apps/api/src/modules/twitch-subscriptions/services/twitch-subscriptions.service.ts:116-296 | on every run without removals by Twitch: ids stay distinct and rows in force stay live whatever deletes fail, and the bijection holds throughout when none fails |
| Agreement.DeleteAgreesIff | apps/api/src/modules/twitch-subscriptions/services/twitch-subscriptions.service.ts:257-282 | deleting a row in force keeps agreement exactly when Twitch carries the delete out |
| Agreement.StatusAgreesIff | apps/api/src/modules/twitch-subscriptions/services/twitch-subscriptions.service.ts:229-235 | a status change keeps agreement exactly when it does not move a row with a subscription into or out of force |
| References.ReferencesOverRuns | apps/api/src/modules/notifications/services/twitch-notifications.service.ts:32-106 | on every run no notification refers to a missing event row |
| References.DeletionFreesLastReference | apps/api/src/modules/discord-handler/handlers/remove-destination.handler.ts:66-68 | after a deletion the row, its subscription and its charge remain exactly when another notification of either kind refers to the row, and nothing else changes |
| Orphans.OrphanStepIff | apps/api/src/modules/notifications/services/twitch-notifications.service.ts:32-63 | after any operation a row has no notification exactly when the operation leaked it, or it had none before and the operation neither deletes it nor gives it one |
| Orphans.OrphanOverRunsIff | apps/api/src/modules/notifications/services/twitch-notifications.service.ts:32-63 | a run ends with a row without notification exactly when some operation leaked it (a direct registration, a refused one, or a creation that fails after registering) and none after that cleared it |
| Orphans.FailedCreationLeaks | apps/api/src/modules/notifications/services/twitch-notifications.service.ts:39-47 | a creation that fails after registering leaves its row with a live subscription, from every state |
| References.DowngradeOutcome | apps/api/src/modules/twitch-subscriptions/services/twitch-subscriptions.service.ts:171-218 | each row ends in exactly one of three states, decided by funding, room at its turn and Twitch's answer: moved and pending, deactivated with all its notifications suspended, or untouched |
| References.DowngradeSparesOthers | apps/api/src/modules/twitch-subscriptions/services/twitch-subscriptions.service.ts:160-170 | rows of other streamers and on other apps never change, nor do their notifications |
| Outcomes.DowngradeOutcomeOf | apps/api/src/modules/twitch-subscriptions/services/twitch-subscriptions.service.ts:160-219 | the outcome in the tables alone: all funding by credit deactivates and suspends, room on an active app and acceptance move the row there with the reported cost, anything else leaves it |
| Outcomes.DowngradeTouches | apps/api/src/modules/twitch-subscriptions/services/twitch-subscriptions.service.ts:160-170 | exactly the streamer's rows on the internal app are listed; every other row and its notifications keep their state |
| Load.LoadOverRuns | apps/api/src/modules/twitch/repositories/twitch-app.repository.ts:73-86 | on every run of complete operations no app exceeds maxCost - 1 + C when no registration costs more than C, downgrade loops included |
| Load.ChosenAppHasRoom | apps/api/src/modules/twitch-subscriptions/services/twitch-subscriptions.service.ts:494-512 | the app chosen for a broadcaster, shared or least loaded, exists and has room |
| Capacity.CapacityBound | apps/api/src/modules/twitch-subscriptions/services/twitch-subscriptions.service.ts:494-512 | with at most k registrations in flight of cost at most C, the counter never exceeds maxCost - 1 + k*C on any run |
| Capacity.OneAtATimeStaysWithinLimit | apps/api/src/modules/twitch/repositories/twitch-app.repository.ts:73-86 | one registration at a time at unit cost never passes maxCost |
| Capacity.CapacityBoundIsReached | apps/api/src/modules/twitch/services/twitch-app.service.ts:115-129 | the bound is the best possible: for every limit, k and C some run reaches it |
| Funding.MoneyIsConserved | apps/api/src/modules/notifications/services/twitch-notifications.service.ts:298-358 | in every interleaving of creations, updates and balance resets each balance is non-negative and is the value last set minus the charges since, each on the account its creation named |
| Funding.NoOverspending | apps/api/src/modules/notifications/services/twitch-notifications.service.ts:32-106 | no account pays for more saved notifications than it was last given |
| Funding.SavedChargedIff | apps/api/src/modules/notifications/services/twitch-notifications.service.ts:140-220 | on every run, updates included, a saved notification went through the guarded decrement of its payer's balance exactly when it was not created on credit, whatever cost type it carries now |
| Funding.UntouchedIsPaid | apps/api/src/modules/notifications/services/twitch-notifications.service.ts:32-106 | a saved notification not funded by credit that no update has touched was charged |
| Funding.CreditThenPersonal | apps/api/src/modules/notifications/services/twitch-notifications.service.ts:163 | in every state a notification created on credit and updated to another cost type is saved under that type with nothing charged |
| Funding.LastUnitIsSpentOnce | apps/api/src/modules/discord/services/discord-guild.service.ts:140-155 | of two creations that both passed the check on the last unit, the first to charge pays and the other fails |
| Funding.CreationOutcome | apps/api/src/modules/notifications/services/twitch-notifications.service.ts:298-358 | one creation by itself is saved exactly when credit is allowed or the named account has a unit, which that account alone then loses |
| Funding.AccountOutcome | apps/api/src/modules/discord/services/discord-guild.service.ts:157-168 | a new user starts with ten units, a new guild with five, and only a known user's balance is set |
| TokenManager.PlaceholderNeverLeaks | apps/api/src/modules/twitch/twitch-token.manager.ts:36-94 | the empty placeholder is never handed out nor loaded back from the database, in any interleaving |
| TokenManager.LookupHappensOnce | apps/api/src/modules/twitch/twitch-token.manager.ts:39-61 | the call repeated after a lookup never looks a second time |
| TokenManager.CallOutcome | apps/api/src/modules/twitch/twitch-token.manager.ts:63-91 | a call gets the token while it is not over, then shares the refresh in flight, and starts one only if there is none |
| TokenManager.FirstCallOutcome | apps/api/src/modules/twitch/twitch-token.manager.ts:39-61 | the first call keeps a stored token that is not over and hands it out, and otherwise starts a refresh over a placeholder |
| TokenManager.RefreshOutcome | apps/api/src/modules/twitch/twitch-token.manager.ts:71-81 | an answered refresh hands out its token, keeps it for its lifetime less a minute and writes exactly that to the database; a failed one hands out nothing |
| TokenManager.OneRefreshOutstanding | apps/api/src/modules/twitch/twitch-token.manager.ts:63-93 | from a state with an entry and no first-time lookup, at most one refresh is outstanding in every orderly interleaving |
| TokenManager.SecondRefreshIffShortLived | apps/api/src/modules/twitch/twitch-token.manager.ts:14-21 | a call in the gap before the refresh settles starts a second one exactly when the token lives 60 seconds or less |
| TokenManager.InvalidationInTheGap | apps/api/src/modules/twitch/services/twitch-app-auth.service.ts:19-37 | a forced invalidation in that gap leads to a second refresh from every such state |
| TokenManager.TwoLookupsTwoRefreshes | apps/api/src/modules/twitch/twitch-token.manager.ts:39-91 | two callers in the first-time lookup with nothing to load start one refresh each |
| PendingStore.PendingDestinationStore.Create | apps/discord-bot/src/modules/notifications/services/pending-destination.store.ts:21-26 | adds the entry to the timed map with a fresh 15 minutes, both maps and the timers staying paired |
| PendingStore.PendingDestinationStore.Update | apps/discord-bot/src/modules/notifications/services/pending-destination.store.ts:32-37 | replaces the draft and restarts the 15 minutes of a live entry, and does nothing for any other token |
| PendingStore.PendingDestinationStore.Delete | apps/discord-bot/src/modules/notifications/services/pending-destination.store.ts:39-46 | removes the entry together with its one timer |
| PendingStore.PendingDestinationStore.AdvanceTo | apps/discord-bot/src/modules/notifications/services/pending-destination.store.ts:48-52 | the callbacks of all timers due until then expire exactly the overdue entries of the timed map |
| PendingStore.EntryIffKeptAlive | apps/discord-bot/src/modules/notifications/services/pending-destination.store.ts:17-53 | after any run since its creation an entry is there exactly when it was not deleted and never left alone for 15 minutes, and it holds the latest draft |
| Dispatch.StreamOnlineHandler.HandleEvent | apps/notification-worker/src/handlers/stream-online.handler.ts:32-62 | the two dispatch loops yield exactly the specified logs, calls and suspensions, and whether the message is requeued |
| Dispatch.StreamOnlineHandler.CollectResults | apps/notification-worker/src/handlers/stream-online.handler.ts:133-164 | the result loop yields one log for each called webhook, in order, and lists exactly the failed ones |
| Dispatch.DispatchOutcome | apps/notification-worker/src/handlers/stream-online.handler.ts:64-172 | by the stored fields alone and whichever payload throws: a destination is logged once exactly when it is active, enabled, without filters or with the stream's game among them, and all such destinations up to it interpolate; a webhook with a URL likewise for calls, and for logs when all interpolate |
| Dispatch.SuspensionOutcome | apps/notification-worker/src/handlers/stream-online.handler.ts:133-171 | a message only suspends, exactly the wanted webhooks that fail while all payloads interpolate |
| Dispatch.AcknowledgedIff | apps/notification-worker/src/handlers/stream-online.handler.ts:51-61 | a message is acknowledged exactly when all wanted payloads interpolate |
| Dispatch.LogsTellTheTruth | apps/notification-worker/src/handlers/stream-online.handler.ts:90-164 | a log says Failed exactly when the queue or the webhook did not take the message |
| Dispatch.OneLogEachIff | apps/notification-worker/src/handlers/stream-online.handler.ts:64-172 | every wanted destination and webhook gets exactly one log, and no other gets any, exactly when every selected payload of both kinds interpolates |
| Dispatch.WhatIsLogged | apps/notification-worker/src/handlers/stream-online.handler.ts:69-172 | whichever payload throws: the Discord destinations before the first bad payload are logged, and the webhooks are all logged or none is |
| Dispatch.SuspendedIffLoggedFailed | apps/notification-worker/src/handlers/stream-online.handler.ts:133-171 | whatever throws, a dispatch suspends a webhook exactly when it logs it as Failed, and reactivates none |
| Dispatch.EveryCallIsLoggedIff | apps/notification-worker/src/handlers/stream-online.handler.ts:115-172 | calls and webhook logs agree in number exactly when every payload interpolates or the first already throws |
| Dispatch.FailedCallSuspendsIff | apps/notification-worker/src/handlers/stream-online.handler.ts:115-172 | a webhook that was called and failed is suspended exactly when every webhook payload of the message interpolates |
| Dispatch.NoCallAfterFailure | apps/api/src/modules/notifications/services/twitch-notifications.service.ts:173-220 | between a failed call to a webhook and the next call to it some operation reactivated it, on every run |
| Dispatch.SmallWrites | apps/api/src/modules/notifications/services/twitch-notifications.service.ts:205-219 | an update writes filters and switch and reactivates; saving, suspending and removing touch their webhook only |
| GuildAccess.HasPermissionIffCovers | apps/api/src/modules/discord/utils/discord-permission.util.ts:1-5 | the mask test on integers of any length holds exactly when every required bit is set |
| GuildAccess.PatternHitsExactlyTheGuild | libs/redis/src/redis.constants.ts:28-35 | the guild's key pattern matches a user or admin key exactly when the key is that guild's |
| GuildAccess.KeysAreDistinct | libs/redis/src/redis.constants.ts:28-32 | no two users, guilds or questions share a cache key |
| GuildAccess.DiscordGuildAccessService.GetOrSet | libs/redis/src/redis.service.ts:68-100 | with a current cache the answer is what a direct lookup answers and the cache stays current; a lookup that throws changes nothing |
| GuildAccess.DiscordGuildAccessService.CanAccessGuild | apps/api/src/modules/discord/services/discord-guild-access.service.ts:20-26 | with a current cache it answers the access question as a direct lookup does |
| GuildAccess.DiscordGuildAccessService.CanManageGuild | apps/api/src/modules/discord/services/discord-guild-access.service.ts:29-35 | with a current cache it answers the management question as a direct lookup does |
| GuildAccess.DiscordGuildAccessService.SetManagerPermission | apps/api/src/modules/discord/services/discord-guild.service.ts:122-128 | leaves no verdict of the guild in the cache, keeps every verdict of every other guild, and keeps a current cache current |
| GuildAccess.CachedVerdictsAreCurrent | apps/api/src/modules/discord/services/discord-guild-access.service.ts:20-80 | after any run in which no overturned verdict is stored late, lookups in flight included, both checks answer what a direct lookup under the current permission answers, and manage implies access |
| GuildAccess.LateStoreIsCurrentIff | apps/api/src/modules/discord/services/discord-guild.service.ts:122-128 | storing a verdict that was in flight keeps the cache current exactly when it is about management, about an owner or an administrator, or whether the member is a manager has not changed since |
| GuildAccess.WithdrawalIsMissed | apps/api/src/modules/discord/services/discord-guild-access.service.ts:20-53 | from every state a manager's lookup in flight while the permission is withdrawn leaves a stale verdict that the next check answers |
| GuildAccess.StaleRun | apps/api/src/modules/discord/services/discord-guild-access.service.ts:20-53 | one such run from an empty cache |
| GuildAccess.ListKeepsExactlyAccessible | apps/api/src/modules/discord/services/discord-guild.service.ts:46-52 | the guild list keeps exactly the guilds the user may access |
| GuildAccess.ManagerSeesIff | apps/api/src/modules/discord/services/discord-guild-access.service.ts:55-80 | a member who is neither owner nor administrator has access exactly when all bits of the manager permission are set, and never manages |
| GuildAccess.AccessOutcome | apps/api/src/modules/discord/services/discord-guild-access.service.ts:55-80 | for a listed guild: owners and holders of bit 3 may access and manage; anybody else never manages and accesses exactly when the row names a permission all of whose bits the member has |
| GuildAccess.AccessFails | apps/api/src/modules/discord/services/discord-api.service.ts:50-62 | the lookup throws exactly when Discord lists no such guild for the user |
| GuildAccess.ListKeepsOrder | apps/api/src/modules/discord/services/discord-guild.service.ts:46-52 | the guild list keeps its order and shows each visible guild once |
| Sessions.LogoutIsFinal | apps/api/src/modules/auth/services/auth.service.ts:183-194 | after a logout returned true its token is rejected and its session is gone at every later moment of every run (section 4.1.4 of RFC 7519 for the expiry) |
| Sessions.LogoutCompletes | apps/api/src/modules/auth/services/auth.service.ts:421-426 | the last step of a logout leaves the token rejected, whether or not it had whole seconds left |
| Sessions.AcceptedIffNotLoggedOut | apps/api/src/modules/auth/strategies/jwt-access.strategy.ts:17-33 | on every run a token is accepted exactly when it was issued, is unexpired and no logout of it has returned true |
| Sessions.BlacklistSilences | apps/api/src/modules/auth/services/auth.service.ts:421-426 | the blacklist key outlives the token for every sub-second phase of the clock |
| Sessions.SilencedIsRejected | apps/api/src/modules/auth/strategies/jwt-access.strategy.ts:17-33 | a token that is expired or blacklisted to its end is never accepted |
| Sessions.RefreshAfterRemovalIff | apps/api/src/modules/auth/services/auth.service.ts:147-176 | of a removed session some continuation refreshes exactly when a refresh was already past its session lookup |
| Sessions.RefreshOvertakenByLogout | apps/api/src/modules/auth/services/auth.service.ts:160-175 | that moment is reachable from the start |
| Sessions.RefreshesEndWithTheSession | apps/api/src/modules/auth/services/auth.service.ts:353-384 | on every run each refresh was let in no later than the session's creation expiry, and none is let in after it |
| Sessions.RefreshOutcome | apps/api/src/modules/auth/services/auth.service.ts:147-176 | a refresh by itself succeeds exactly for an existing session that is not over, of the user of the token, with a matching stored hash and a user who may log in; it issues one token and leaves the session as it was |
| Sessions.CreationOutcome | apps/api/src/modules/auth/services/auth.service.ts:362-384 | a session ends its lifetime from now, its token its own from the current whole second |
| Sessions.LogoutOutcome | apps/api/src/modules/auth/services/auth.service.ts:183-194 | a logout by itself goes through exactly for a session of the user, and removes that session only |
| Sessions.RevokeOutcome | apps/api/src/modules/auth/services/auth.service.ts:209-218 | revoking removes exactly the named session of its own user |
| Roles.RolesService.Edit | apps/api/src/modules/roles/services/roles.service.ts:84-133 | the query and checks of an edit, in the code's order, are the specified decision and change |
| Roles.RolesService.Delete | apps/api/src/modules/roles/services/roles.service.ts:135-157 | a role is removed exactly when the actor holds a strictly higher one |
| Roles.RolesService.Create | apps/api/src/modules/roles/services/roles.service.ts:69-82 | a role is created exactly when the actor is known and each permission, or ADMIN, is in some held role; users and all other roles are unchanged and nobody changes level |
| Roles.RolesService.AssignRoles | apps/api/src/modules/users/services/users.service.ts:102-148 | the assignment is decided by the two strict priority comparisons unless the token says ADMIN, and keeps only existing roles |
| Roles.EditOutcome | apps/api/src/modules/roles/services/roles.service.ts:84-133 | an edit goes through exactly with a role above the edited one and above the new priority, and ADMIN or all old and all new permissions; it writes permissions and priority, or keeps the priority |
| Roles.DeleteOutcome | apps/api/src/modules/roles/services/roles.service.ts:135-157 | a deletion goes through exactly with a role above, and takes the role from every user and nothing else |
| Roles.AssignOutcome | apps/api/src/modules/users/services/users.service.ts:102-148 | an assignment goes through exactly when one role of the actor outranks all roles of the target and all given ones, or the token says ADMIN; the existing given roles, each once, replace those held |
| Roles.RolesService.FindHighestAbove | apps/api/src/modules/roles/services/roles.service.ts:97-107 | a role above the given priority is found exactly when the highest held one is above it, and it is the highest |
| Roles.RolesService.HighestPriority | apps/api/src/modules/users/services/users.service.ts:125-132 | the loop over held roles computes their highest priority, 0 for none |
| Roles.MaxPriorityIsLeast | apps/api/src/modules/users/services/users.service.ts:125-132 | that priority is the least bound of the held roles' priorities |
| Roles.AccessIff | apps/api/src/modules/roles/mappers/roles.mapper.ts:22-31 | a permission is granted exactly when some held role has it |
| Roles.OnlyInferiorsMove | apps/api/src/modules/roles/services/roles.service.ts:84-157 | one operation without an ADMIN token changes the top priority only of users below the actor and lifts none of them to the actor's level |
| Roles.TopNeverRises | apps/api/src/modules/users/services/users.service.ts:114-147 | the highest priority held by anyone never rises on any run without ADMIN tokens |
| Roles.TopIsKept | apps/api/src/modules/roles/services/roles.service.ts:69-157 | a user whom no actor of the run exceeds keeps the same top priority to the end |
| Roles.OwnRunKeepsOwnTop | apps/api/src/modules/roles/services/roles.service.ts:69-157 | no sequence of a user's own actions changes that user's top priority |
| Roles.UnionNeverGrows | apps/api/src/modules/roles/services/roles.service.ts:159-168 | on any run by users lacking ADMIN the union of permissions over all roles never grows |
| Roles.OwnAccessNeverGrows | apps/api/src/modules/roles/services/roles.service.ts:69-157 | a user without ADMIN gains no permission by any sequence of own actions |
| Roles.ZeroIsNoException | apps/api/src/modules/roles/services/roles.service.ts:109-117 | an edit is allowed with a new priority, 0 included, exactly when it is allowed without one and the new priority is below the actor's highest |

## Left out

- Controllers, request validation, Swagger, module wiring, configuration, migrations: no property beyond their declarations.
- Cryptography: password hashes, token signatures and encryption appear as answers (`tokenMatches`, `userToken`); nothing is claimed about them.
- Concurrency of the subscription operations with one another: `SubscriptionDb` runs them one after another. The interleaved parts are modelled on their own in `Capacity` and `Funding`.
- Classes for the interleaved protocols: `SingleFlight`, `TokenManager`, `Funding`, `Capacity` and `Sessions` are state machines on values, since their steps belong to many calls at once; updates of shared entry objects through several references are not captured.
- `PendingDestination` objects are values: that `create` and `get` hand out the same object the store keeps is not captured. Timers fire when due, one callback at a time.
- Numbers in JSON are kept as the text the printer writes; the parser reads that text and nothing looser. White space, the early place of integer-like keys in an object, `__proto__` as a variable name, and surrogate pairs are not modelled.
- `buildStreamOnlineVars` and the constant preview variables: any finite map of variables is allowed instead.
- Schema validation of Discord payloads: part of the `funded` input of a creation.
- Twitch subscription ids and row ids are fresh counters instead of random ids; an app is named by one id for both its primary key and its client id.
- App costs are whole numbers and app statuses are fixed during a run; adding, editing and removing apps is not modelled.
- Database writes are assumed to succeed; bulk updates with an empty list change nothing.
- The cron decides age by an input for each row: the column it computes the age from is not among the columns it selects.
- Authorization before a deletion is an input (`mayDelete`). Of an update of a notification only the cost type, the reactivation and the dispatch filters are modelled; updates of users and profiles are easy members.
- Linking and unlinking a Twitch account is two operations of a run, the flags of the streamer and the migration or downgrade.
- Role names and their uniqueness, and the list queries of roles and users.
- Discord's answers about a user's guilds are fixed during a run of `GuildAccess`; Redis expiry of a verdict is a step that may come at any time. Bracket classes of key patterns do not occur in the modelled patterns.
- Two concurrent first uses of one guild row, and single-flight waiting inside the access checks, which `SingleFlight` covers for one key.
- Statistics, pagination, mappers, channel synchronisation, slash commands, modals and embeds: easy members or user interface.
- SingleFlight.NoWaiterIsLate: the time Redis takes to answer the read of a due waiter is not counted.
- Capacity.CapacityBound: one app's counter on its own, with cron and deletion as releases of any amount.
- Dispatch.NoCallAfterFailure: dispatches come one at a time.
