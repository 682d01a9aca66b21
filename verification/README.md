# new-api: protocols, caches and money, verified

A Dafny model of the parts of the new-api gateway in which several functions, threads or requests have to fit together:
payment orders that several callbacks may complete at once, caches that have to equal a recomputation, billing that has
to conserve money, two body storages that have to look alike, and an Ogg parser.

| module | models |
|---|---|
| `Base`, `Text`, `Strings` | optional values, float-to-int conversion, Go's trimming, joining and splitting, string order and sorting |
| `OrderLock`, `OrderProgress` | the reference-counted lock per trade number: safety, and that every call gets in and returns |
| `OrderCredit`, `OrderOutcome`, `OrderPaid`, `HandlerProgress`, `TopUpAmount` | every handler that completes an order under the lock: who may change an order, what each handler leaves, that a paid order is credited once, that handlers return; the amount arithmetic |
| `ModelNames`, `UpstreamModels`, `UpstreamRuns` | detecting and applying upstream model changes, once and any number of times |
| `PriceDiff`, `PriceDiffBuilder`, `ModelsDev` | the price difference builder, and the choice of one provider per model |
| `RateLimit`, `VerificationCodes` | the sliding-window limiter and the verification-code store, each against a full log |
| `MultiKey`, `MultiKeyChannel` | administration of channels with many keys |
| `MidjourneyRefund`, `VideoBilling`, `TaskPolling` | refunds under compare-and-set, billing at poll time, and the polling loop with several pollers |
| `ByteFile`, `BodyStorage`, `CacheCounters` | the two body storages, and the usage counters under concurrency |
| `OggPages` | the Ogg page walk behind the Opus duration |

`dafny verify dfyconfig.toml` checks everything.

State that the program changes in place is a class whose methods are proved against functions of the old state; the
theorems are about those functions and about runs of them. Concurrency is modelled as a state machine: one step is one
atomic action of one thread, a run is an arbitrary schedule, and the theorems hold after every schedule. Most operations
have two sides: what must never happen (two holders, two credits, two refunds, a stale cache) and what has to happen
(the lock is granted, the paid order is credited, the failed task is refunded, the pending change is found). Both are
stated, the second in terms of the inputs and not of the functions that compute it.

Several promises hold only under a condition. For those the model proves both directions, and a lemma gives the failing
input: selected model names with a comma (`CommaReappears`), a rate window longer than the expiration
(`ForgottenTooEarly`), purposes that are prefixes of each other (`PurposesCollide`), deleting disabled keys when every
key is auto-disabled (`DeletedKeysComeBack`), bracket text that does not parse (`AppendLosesKeys`), null or literal
"same" prices (`NullIsHidden`, `LiteralSameIsHidden`), upstream reports that contradict themselves (`DishonestReport`),
the same task twice in one response (`RepeatedIdRefundsTwice`), a failed video task that is revived
(`RevivedTaskIsRefundedTwice`), one copy of a task processed twice (`RepeatRefundsTwice`), units of 2·10^16 tokens
(`HugeUnitsRoundUp`), an empty read at the end of a body (`SameStep`), and two prices less than 1e-9 apart
(`DearerFirstIsSelected`). Where code and comment disagree the code is followed: the comment above the models.dev
conversion promises the cheapest non-zero input. The manual completion multiplies the amount of a Creem order by
QuotaPerUnit although the Creem webhook credits the amount itself; the model follows both.

## Model

| member | source | states |
|---|---|---|
| `OrderLock.StepKeepsInv` | controller/topup.go:279-308 | every atomic step of LockOrder and UnlockOrder, by any thread in any state the invariant allows, keeps the invariant that ties program counters, table, reference counts and mutex holders together |
| `OrderLock.MutualExclusion` | controller/topup.go:279-308 | in every interleaving no two threads are between LockOrder and UnlockOrder for one trade number, although entries are deleted and created again |
| `OrderLock.TableIsExact` | controller/topup.go:279-308 | in every reachable state a trade number has an entry exactly when a thread is registered on it (apart from the two moments under createLock), and refCount is the number of registered threads |
| `OrderLock.PointersAreFresh` | controller/topup.go:279-308 | a mutex pointer a thread kept is still the one in the table, the Load in UnlockOrder never misses, and a thread only unlocks a mutex it holds |
| `OrderLock.QuiescentTableIsEmpty` | controller/topup.go:294-308 | when every call has returned, the table is empty and createLock is free |
| `OrderProgress.NoDeadlock` | controller/topup.go:279-308 | in every interleaving, while some call has not returned, some thread can move; and a thread inside a call stands still exactly while another thread is inside createLock or holds the order it waits for |
| `OrderProgress.EveryCallReturns` | controller/topup.go:279-308 | after any interleaving, once no new calls start: n threads need at most 16 n turns of threads that can move, and when none can move every call has returned, the table is empty and createLock is free |
| `OrderProgress.EveryCallEnters` | controller/topup.go:279-308 | whatever happens around it, a call of LockOrder that has returned was inside the guarded section of its own order |
| `OrderCredit.StepKeepsCInv` | controller/topup.go:373-408 | every step of every handler keeps the invariant between locks, handler progress, order rows and credits |
| `OrderCredit.LeavesPendingOnce` | controller/topup_stripe.go:222-327 | an order that has left pending keeps its whole row for ever, under any mix of Epay callbacks, Stripe completions, failures and expiries, Creem, Waffo and Waffo Pancake completions, failed Waffo payments, subscription callbacks and manual completions |
| `OrderCredit.CreditedAtMostOnce` | controller/topup.go:373-408 | no order is credited twice and no subscription started twice, only successful orders are credited, to their user, by exactly what the order is due |
| `OrderCredit.SuccessIsAccountedFor` | model/subscription.go:523-629 | once all calls have returned, every order that became successful was credited, or adding its quota failed, or it is a subscription that was started: exactly one of the three |
| `OrderCredit.QuotaIsConserved` | model/topup.go:109-160 | a user's quota grows by exactly the sum of that user's credits, whatever the database makes of the fraction the Stripe path adds |
| `OrderCredit.FinalStep` | model/topup.go:82-107 | no step changes a row that is no longer pending, nor the user, amount, money or provider of any row |
| `OrderCredit.CreditsKept` | model/topup.go:320-589 | a step keeps credits, lost credits and started subscriptions exclusive, credits only what was unpaid, and keeps each credit what its order is due |
| `OrderCredit.DecideOk` | controller/topup_stripe.go:222-327 | whatever a handler finds, it writes only pending orders, credits only successful unpaid ones, starts only open subscriptions, and credits next what it marked successful |
| `OrderOutcome.CallbackOutcome` | controller/topup.go:373-408 | for every reachable state, every handler and any interleaving: a call whose own database calls succeed and that has returned began its work at one of its turns as the holder of its order, and in the end the rows it found there have the promised outcome (credited by amount times rate, by money, or by the amount as it stands; failed; expired; a subscription started; nothing for another provider or a row that is not pending), with exactly that one credit or with none |
| `OrderOutcome.BeginDelivers` | model/topup.go:109-160 | the decision of every handler on the rows it finds is what the table of promises, written in the rows' fields, asks for |
| `OrderOutcome.FailedCall` | model/topup.go:109-160 | a failing database call changes nothing and ends the handler, except that a success already saved is recorded as not credited |
| `OrderOutcome.OutsideTheLock` | controller/topup.go:248-264 | outside the lock a new pending order or subscription order is stored unless its number is taken, and a pending Waffo order can fail, and nothing else changes |
| `OrderOutcome.TakenOver` | model/subscription.go:595-629 | a subscription takes over a top-up row it finds, with its money and method, exactly unless that was paid by another method |
| `OrderPaid.PaidOrderIsCreditedOnce` | controller/topup_stripe.go:258-294 | from any reachable state: a pending order of any provider that nobody was called for yet, any number of success callbacks for it among whatever else is going on, every database call answered: once all calls have returned the order is successful and its user was credited exactly once, by the promised amount |
| `HandlerProgress.NoDeadlock` | controller/topup.go:373-408 | in every interleaving of handlers, while one has not returned some thread can move, and only a lock keeps a thread from moving |
| `HandlerProgress.EveryHandlerReturns` | controller/topup.go:373-408 | once no new calls start, n threads need at most 16 n turns of threads that can move, and when none can move every handler has returned |
| `TopUpAmount.WholeUnits` | controller/topup.go:242-247 | the stored units fit into the requested tokens and one more does not, exactly when the decimal division rounds down |
| `TopUpAmount.StoredUnits` | controller/topup.go:242-247 | the stored amount is the number of whole units, or one more exactly when so little is missing to the next that the 16 digits of the division hide it |
| `TopUpAmount.TokenCredit` | controller/topup.go:398-400 | any positive QuotaPerUnit: when the division rounds down, a credited token request gets at most what was asked for, loses less than a unit and a token, and reaches the minimum exactly when the request does (for QuotaPerUnit of at least 1); when it rounds up, it gets at least what was asked for |
| `TopUpAmount.TokenCreditIntegral` | controller/topup.go:179-187 | integral QuotaPerUnit: minimum × QuotaPerUnit ≤ credited ≤ requested < credited + QuotaPerUnit exactly when 2·10^16 times the tokens missing to the next unit exceed QuotaPerUnit |
| `TopUpAmount.TokenCreditInPractice` | controller/topup.go:242-247 | below a QuotaPerUnit of 2·10^16 that is every request |
| `TopUpAmount.HugeUnitsRoundUp` | controller/topup.go:242-247 | from there on, whatever the minimum, the accepted request of one token less than a whole number of units is credited with one token more than was asked for |
| `TopUpAmount.AcceptedRequest` | controller/topup.go:179-187 | a request is accepted exactly from the minimum on, in units or in the tokens they stand for, with a price of a cent, and the order carries user, price and payment method |
| `TopUpAmount.CurrencyCredit` | controller/topup.go:398-400 | currency display: an accepted request is credited with its units' worth of tokens, less the fraction of one |
| `TopUpAmount.CurrencyCreditIntegral` | controller/topup.go:398-400 | with a whole number of tokens per unit nothing is lost, and the minimum is reached |
| `TopUpAmount.RoundedNear` | controller/topup.go:242-247 | the decimal division is off by at most half a unit of its last digit, alike for both signs |
| `TopUpAmount.PaidRequestIsCredited` | controller/topup.go:242-408 | the whole way in token display: an accepted request whose order is paid, by any number of callbacks at once, is credited once, with no more than was asked for, at least the minimum, and less than one unit short |
| `Text.JoinSplitRoundTrip` | model/channel.go:175-197 | storing a list as joined text and splitting the trimmed text gives the list back exactly when no piece contains the separator and neither end is empty, or the list is one empty piece |
| `Text.SplitPieces` | model/channel.go:289-294 | the pieces of a split are free of the separator, and an end piece is empty only next to a separator |
| `Text.JoinSplit` | model/channel.go:289-294 | joining the pieces of a split gives the text back |
| `Text.TrimKeepsMiddle` | controller/channel_upstream_update.go:97-102 | trimming drops cut characters at both ends, keeps everything between the first and the last other one, and leaves nothing exactly of a text of cut characters |
| `ModelNames.NormalizeIsNormal` | controller/channel_upstream_update.go:97-102 | normalised names are trimmed, non-empty and distinct |
| `ModelNames.NormalizeNormal` | controller/channel_upstream_update.go:97-102 | normalising such a list changes nothing |
| `ModelNames.NormalizeMeans` | controller/channel_upstream_update.go:97-102 | over any list: each name that is not blank once, without surrounding blanks, in the order of first occurrence |
| `ModelNames.MergeNormal` | controller/channel_upstream_update.go:104-118 | a merge is normal and holds exactly the names of both lists |
| `ModelNames.MergeModelNames` | controller/channel_upstream_update.go:104-118 | the loop with its seen-set computes base followed by the new names in order |
| `ModelNames.ApplySelectedIs` | controller/channel_upstream_update.go:142-147 | applying a selection appends the additions in order and then drops the removals |
| `ModelNames.ApplySelectedMembers` | controller/channel_upstream_update.go:142-147 | on any lists: what is added is there even if it is to be removed as well, and everything else that was there and is not to be removed |
| `ModelNames.ListsKeepOrder` | controller/channel_upstream_update.go:104-140 | a merge is the base and then what is new, each in its own order; subtracting and intersecting keep the order of the base |
| `UpstreamModels.CollectPending` | controller/channel_upstream_update.go:176-235 | the loops over sets compute the wanted additions and removals, in upstream and local order |
| `UpstreamModels.DetectMeans` | controller/channel_upstream_update.go:176-235 | what a detection returns: to add, the upstream names that are neither local nor a redirect target and that no ignore entry covers, a "regex:" entry by its trimmed pattern and any other by equality; to remove, the local names that upstream lacks and that are not the source of a redirect; both distinct and in the order of their list |
| `UpstreamModels.ApplyMeans` | controller/channel_upstream_update.go:780-828 | what a selection does to any row: pending names to be added come to the models and leave the ignore list, pending names to be ignored join it, pending names to be removed go unless they are added as well, what was dealt with is no longer pending, and the column is written only when the list changed |
| `UpstreamModels.ApplyKeepsOrder` | controller/channel_upstream_update.go:780-828 | after a selection every list stands in order: what was there first, then what is new in the order of the request |
| `UpstreamModels.CheckMeans` | controller/channel_upstream_update.go:360-407 | what a check does: nothing when it comes too early, only the time when the fetch failed, and otherwise it stores the pending removals and either appends the pending additions to the models or stores them, with the changed flag and the count |
| `UpstreamModels.CacheMatchesDetection` | controller/channel_upstream_update.go:780-828 | comma-free additions: after any selection the cached remaining lists equal a new detection, element for element and in order, exactly when the old and newly ignored entries that were not added ignore just the names they are meant to |
| `UpstreamModels.PlainCacheMatchesDetection` | controller/channel_upstream_update.go:780-828 | selections without pattern names: that equality holds exactly when no selected addition contains a comma |
| `UpstreamModels.CommaReappears` | controller/channel_upstream_update.go:793-815 | an added name with a comma is found missing again although the cache dropped it |
| `UpstreamModels.PatternNameReappears` | controller/channel_upstream_update.go:793-815 | ignoring a name that reads as a pattern, when no pattern among the ignored names matches it, leaves it wanted |
| `UpstreamModels.ApplyAllIsFixpoint` | controller/channel_upstream_update.go:876-886 | applying everything pending leaves nothing pending, and a new detection finds nothing exactly when no addition contains a comma |
| `UpstreamModels.AutoSyncConverges` | controller/channel_upstream_update.go:360-407 | auto-sync adds exactly the pending additions, stores the pending removals, and the next check adds nothing exactly when no added name contains a comma |
| `UpstreamRuns.SelectionsKeepFresh` | controller/channel_upstream_update.go:780-828 | upstream names that do not read as patterns: through any sequence of selections the cache equals a new detection after every one exactly when none adds a name with a comma |
| `UpstreamRuns.CheckThenSelections` | controller/channel_upstream_update.go:360-407 | the same for the row a check leaves |
| `UpstreamModels.StoredModels` | model/channel.go:289-294 | comma-free normal names survive the models column |
| `UpstreamModels.Channel.CheckUpstream` | controller/channel_upstream_update.go:360-407 | the method leaves the row, the changed flag and the count the specification of a check gives, including the interval guard and a failed fetch |
| `UpstreamModels.Channel.ApplyUpdates` | controller/channel_upstream_update.go:780-828 | the method leaves the row of the specification and reports what was added, removed, kept pending and whether the models changed |
| `PriceDiff.ListedExactlyWhenDifferent` | controller/ratio_sync.go:536-696 | distinct channel names, no null and no literal "same" upstream: the pruned result lists a model and field exactly when some upstream supplies a value there and the local one is absent or different |
| `PriceDiff.ListedExactly` | controller/ratio_sync.go:536-696 | distinct channel names, any values: listed exactly when an upstream differs there with a value that is neither null nor "same", or a local value exists, some upstream differs from it and an upstream that is silent there differs visibly elsewhere |
| `PriceDiff.ListedItem` | controller/ratio_sync.go:536-696 | distinct channel names, any values: a listed item shows the local value and, for exactly the channels that differ visibly somewhere, their value or "same" or nothing, with their confidence |
| `PriceDiff.ListedShows` | controller/ratio_sync.go:557-654 | the same in terms of the stored entries: the local entry, each kept channel's own entry, "same" where it agrees within a billionth, nothing where it has none, and doubt exactly for a ratio of 37.5 with a completion ratio of 1 |
| `PriceDiff.DiffersMeans` | controller/ratio_sync.go:48-63 | an upstream differs exactly when it has an entry and the local one is missing, null or disagrees: numbers by a billionth or more, other entries by being different |
| `PriceDiff.NothingElseListed` | controller/ratio_sync.go:667-693 | no model is left without a field, and no unknown channel name appears |
| `PriceDiff.KeptIs` | controller/ratio_sync.go:656-665 | the second pass keeps exactly the channels that differ visibly somewhere |
| `PriceDiff.LiteralSameIsHidden` | controller/ratio_sync.go:608-624 | an upstream that supplies the literal "same" for a model without a local value is not listed |
| `PriceDiff.NullIsHidden` | controller/ratio_sync.go:608-628 | an upstream that supplies only null for a model with a local value differs and is not listed |
| `PriceDiffBuilder.FillCell` | controller/ratio_sync.go:606-628 | the branches for one channel compute the cell and the two flags |
| `PriceDiffBuilder.FirstPass` | controller/ratio_sync.go:593-654 | the nested loops build every included item, in any iteration order |
| `PriceDiffBuilder.SecondPass` | controller/ratio_sync.go:656-665 | the collected names are exactly those with a counting value in some item |
| `PriceDiffBuilder.ThirdPass` | controller/ratio_sync.go:667-693 | pruning in place leaves the surviving items, without the dropped channels and without empty models |
| `PriceDiffBuilder.BuildDifferences` | controller/ratio_sync.go:536-696 | the three passes together compute the specified result |
| `ModelsDev.SelectIsCheapest` | controller/ratio_sync.go:881-893 | over sorted providers the selected input is zero only if all are; otherwise it is positive and less than epsilon above every positive one, although nearly-equal is not transitive |
| `ModelsDev.CheapestInEveryOrder` | controller/ratio_sync.go:881-905 | the cheapest positive input is selected for every naming of the providers exactly when no other one lies less than epsilon above it |
| `ModelsDev.DearerFirstIsSelected` | controller/ratio_sync.go:888-890 | a price less than epsilon above the cheapest is selected in some order |
| `ModelsDev.NoTieBreak` | controller/ratio_sync.go:891-892 | with sorted providers the tie-breaker never replaces a candidate |
| `ModelsDev.UnsortedSelectionDrifts` | controller/ratio_sync.go:891-892 | without sorting, the tie-breaker can move further than epsilon from the cheapest |
| `ModelsDev.SelectionMeans` | controller/ratio_sync.go:906-944 | over the whole document: a model is selected exactly when some provider has a valid offer, the selected one is such an offer, and it is within epsilon of the cheapest positive one |
| `ModelsDev.SelectionOfDocument` | controller/ratio_sync.go:845-944 | in terms of the document: selected exactly the models some provider offers (input there and not negative, output absent or not negative, no free input with a paid output), with that provider's input, output and valid cache price; no offer is cheaper by a billionth, free only if all are, and of equal prices the first provider's |
| `ModelsDev.SelectionIsDeterministic` | controller/ratio_sync.go:915-944 | the result does not depend on the order in which the provider map is visited |
| `ModelsDev.SelectCandidates` | controller/ratio_sync.go:915-944 | the two nested loops compute that selection |
| `Strings.SortedUnique` | controller/ratio_sync.go:915-919 | a set of keys has one sorted enumeration |
| `Strings.LessMeans` | controller/ratio_sync.go:915-919 | one string comes before another exactly when, at the first place where they differ, it ends or has the smaller character |
| `Strings.SortKeys` | controller/ratio_sync.go:915-919 | sorting returns an increasing enumeration of the keys |
| `RateLimit.LimiterFollowsLog` | common/rate-limit.go:28-70 | every decision in every run with a monotone clock and cleanups anywhere equals the full-log rule exactly when no maximum is 0 and, if the cleanup runs, no window exceeds the expiration by more than a second |
| `RateLimit.KeyDecision` | common/rate-limit.go:45-70 | a bounded queue that satisfies the invariant decides like a count over the full log |
| `RateLimit.ForgottenTooEarly` | common/rate-limit.go:28-43 | a longer window lets the cleanup forget requests that still count |
| `RateLimit.ZeroMaximumAccepts` | common/rate-limit.go:51-70 | a maximum of 0 still accepts the first request of a key |
| `RateLimit.InMemoryRateLimiter.Request` | common/rate-limit.go:45-70 | decision and new store are the specified ones, and reading the oldest time is safe |
| `RateLimit.InMemoryRateLimiter.ClearExpiredItems` | common/rate-limit.go:28-43 | one cleanup pass drops exactly the queues whose newest time is too old, in any iteration order |
| `VerificationCodes.StoreAnswersAsLog` | common/verification.go:35-72 | every answer in every run with a monotone clock is the answer of the full event log exactly when no purpose is a prefix of another (or the validity is not positive) |
| `VerificationCodes.PurposesCollide` | common/verification.go:35-56 | for a purpose that extends another, a code registered for one verifies for the other |
| `VerificationCodes.EmailAndResetAnswerAsLog` | common/verification.go:16-19 | the two purposes in use never interfere, and pruning is invisible |
| `VerificationCodes.StoreIsBounded` | common/verification.go:35-72 | registering drops nothing below the limit of 10, and leaves more codes only if none of them was stale |
| `VerificationCodes.VerificationStore.Register` | common/verification.go:35-45 | the new map, pruned only above the size limit |
| `VerificationCodes.VerificationStore.Verify` | common/verification.go:47-56 | a code verifies exactly when it is stored for that key, equal and younger than the validity |
| `VerificationCodes.VerificationStore.RemoveExpiredPairs` | common/verification.go:65-72 | the loop drops exactly the stale entries |
| `MultiKey.RunRefines` | controller/channel.go:1407-1710 | every sequence of these actions and automatic disablings on any aligned row: each does to the stored text, size and three maps what the list operation does to records of key, status, time and reason, replies the same and keeps them aligned, exactly when each deletion leaves keys that are read back from their joined text; automatic re-enabling is not among them |
| `MultiKey.ActRefines` | controller/channel.go:1407-1710 | one action on any aligned row: same records, same reply and counts, still aligned, exactly when it is such an action |
| `MultiKey.PlainAllSafe` | controller/channel.go:1407-1710 | for keys that fit on a line and start with an ordinary character every sequence of actions is such |
| `MultiKey.StorableIs` | model/channel.go:175-197 | which lists are read back from their joined text, as an array or as lines |
| `MultiKey.ArrayText` | model/channel.go:175-197 | key text is tried as an array exactly when its first character that is not blank is a bracket |
| `MultiKey.CountsAgree` | model/channel.go:175-197 | the key list and the count that Update stores agree exactly unless the text parses as an empty array |
| `MultiKey.WithoutKeyIs` | controller/channel.go:1581-1613 | the rebuild loop of delete_key keeps the other records in order with their states at the moved indices |
| `MultiKey.WithoutAutoDisabledIs` | controller/channel.go:1643-1681 | the rebuild loop of delete_disabled_keys keeps exactly the records that are not auto-disabled |
| `MultiKey.DeleteKeyExact` | controller/channel.go:1563-1641 | any keys: delete_key is remove-at-index exactly when the remaining keys are read back from their joined text |
| `MultiKey.DeleteDisabledExact` | controller/channel.go:1643-1710 | any keys: delete_disabled_keys is the filter exactly when a key remains and the remaining ones are read back from their joined text |
| `MultiKey.DeletedKeysComeBack` | model/channel.go:526-573 | any channel whose keys are all auto-disabled: the request reports them deleted, and they stay and become enabled |
| `MultiKey.AutoDisableRefines` | model/channel.go:641-691 | automatic disabling sets status, time and reason of one record |
| `MultiKey.AutoEnableLeavesMarks` | model/channel.go:668-669 | automatic re-enabling keeps the maps aligned exactly when the key had no stored time and reason |
| `MultiKeyChannel.AppendRefines` | controller/channel.go:900-972 | any aligned row with keys: append mode keeps every record and adds one enabled record for each new key exactly when the joined list is read back as the old keys and the new ones; for bracket text that does not parse, only the new keys are joined |
| `MultiKeyChannel.PlainAppendKeeps` | controller/channel.go:900-972 | a channel with plain keys keeps them, whatever is appended |
| `MultiKeyChannel.AppendToNothing` | controller/channel.go:900-972 | a channel without keys takes the text as it is, every key enabled |
| `MultiKeyChannel.NewKeysAre` | controller/channel.go:938-970 | the appended keys are exactly the trimmed lines that are not there yet, distinct, in the order of the lines, and fit on a line |
| `MultiKeyChannel.AppendLosesKeys` | controller/channel.go:907-920 | stored text that looks like an array but does not parse is lost by append mode |
| `MultiKeyChannel.ReplaceAligned` | model/channel.go:526-573 | replacing the keys keeps every status at its index, and the maps aligned exactly when no disabled time or reason lies behind the new end |
| `MultiKeyChannel.Channel.Manage` | controller/channel.go:1407-1710 | the method for every action leaves the specified row and reply |
| `MultiKeyChannel.Channel.AppendKeys` | controller/channel.go:900-972 | the loops of append mode leave the specified row |
| `MultiKeyChannel.Rebuild` | controller/channel.go:1581-1613 | the loop with its running index computes the rebuilt keys and maps |
| `MultiKeyChannel.RebuildSurvivors` | controller/channel.go:1643-1681 | the same for delete_disabled_keys, with the number of deleted keys |
| `MidjourneyRefund.RefundedAtMostOnce` | controller/midjourney.go:121-197 | any number of pollers with stale snapshots, any interleaving, bulk failures included: a task is refunded at most once, by the quota it was charged, and only if it ends failed |
| `MidjourneyRefund.RefundedExactlyOnce` | controller/midjourney.go:121-197 | honest reports and no bulk failure: in every interleaving a charged task that fails is refunded exactly once, by its quota, and a task that has not failed is not refunded |
| `MidjourneyRefund.TimeoutRefunds` | controller/midjourney.go:124-129 | the winner of a task older than an hour stores it as failed at 100% and refunds its quota, whatever was reported |
| `MidjourneyRefund.WinnerStores` | controller/midjourney.go:133-183 | the winner stores the report in the row and keeps its quota, a failure at 100% |
| `MidjourneyRefund.SkippedChangesNothing` | controller/midjourney.go:202-256 | a report is skipped exactly when the row holds it already |
| `MidjourneyRefund.SafeExactlyForHonestReports` | controller/midjourney.go:168-180 | that is so for a set of possible reports exactly when every report below 100% carries a fail reason if and only if its status is FAILURE |
| `MidjourneyRefund.RefundsAreConserved` | controller/midjourney.go:168-183 | the total paid back is the sum of the charged quotas over the set of refunded tasks |
| `MidjourneyRefund.DishonestReport` | controller/midjourney.go:168-180 | every other report refunds some task twice |
| `MidjourneyRefund.RepeatedIdRefundsTwice` | controller/midjourney.go:121-197 | whenever a response names a task twice there are honest reports that refund it twice |
| `MidjourneyRefund.ResponseSafeExactlyForDistinctIds` | controller/midjourney.go:121-197 | for a list of task ids: every response about them with honest reports, on any stale copies of tasks that had not failed, refunds each task at most once exactly when no id occurs twice |
| `MidjourneyRefund.ResponseIsRun` | controller/midjourney.go:121-197 | a response that names each task once is a run of single items, so the theorem covers the loop |
| `MidjourneyRefund.Database.HandleResponse` | controller/midjourney.go:121-197 | the loop leaves the specified rows, refunds and task copies |
| `MidjourneyRefund.Database.HandleItem` | controller/midjourney.go:121-197 | one item: timeout, comparison, merge, compare-and-set and refund |
| `MidjourneyRefund.Database.UpdateWithStatus` | model/midjourney.go:160-171 | the row is replaced exactly when its stored status is the expected one |
| `VideoBilling.PollKeepsBalance` | controller/task_video.go:121-279 | from balanced books a poll leaves them balanced exactly when moved money is saved, a charged task does not leave FAILURE and a due refund gets paid |
| `VideoBilling.RunBalanced` | controller/task_video.go:121-279 | a run keeps the books balanced after every poll exactly when every poll is of that kind: the user owes the stored quota, and nothing after failure |
| `VideoBilling.VideoTaskIsBilledOnce` | controller/task_video.go:121-279 | every write succeeds and no failed task is revived: quota is the net charge until failure, failure refunds exactly that once, and never more is refunded than was billed |
| `VideoBilling.PollStores` | controller/task_video.go:121-279 | a poll whose writes succeed stores the reported status with its progress, charges a success what its tokens cost where they are known, and leaves the charge alone otherwise |
| `VideoBilling.SettlementMeans` | controller/task_video.go:153-182 | when a success is settled by tokens, and by which quota: tokens times model ratio times the user's own or the group's ratio, without the fraction |
| `VideoBilling.RefundedAtMostOnce` | controller/task_video.go:241-276 | without revival a task is refunded at most once, whatever writes fail |
| `VideoBilling.OnceExactlyWithoutRevival` | controller/task_video.go:241-276 | for a sequence of reported statuses: whatever the charge and whichever writes fail the task is refunded at most once exactly when no other known status is reported between two failures |
| `VideoBilling.RevivedTaskIsRefundedTwice` | controller/task_video.go:241-276 | a revived task that fails again is refunded twice, so the user ends ahead by its quota |
| `VideoBilling.BulkFailKeepsBalance` | controller/task_video.go:35-45 | the bulk failure keeps the books balanced exactly for tasks that cost nothing or had failed |
| `VideoBilling.ActualQuotaNatural` | controller/task_video.go:153-182 | settlement by tokens is never negative with non-negative group ratios |
| `VideoBilling.VideoTask.UpdateVideoSingleTask` | controller/task_video.go:121-279 | the poll of a copy step by step leaves the specified task, bill and refunds |
| `VideoBilling.VideoTask.Settle` | controller/task_video.go:153-240 | the difference is charged or given back, and the quota recorded only if that worked |
| `TaskPolling.BilledAtMostOnce` | service/task_polling.go:344-502 | any number of pollers and timeout sweeps of the running loop, stale copies, failing writes, bulk failures, any reports, each copy processed once: the task is billed at its end at most once, by a refund of exactly its charge or by one settlement, and the charge is accordingly the quota, nothing, or the settled quota |
| `TaskPolling.EndedTaskIsBilledOnce` | service/task_polling.go:344-502 | each copy processed once, bills paid, no bulk failure and no legacy timeout: in every interleaving a task stored as failed was refunded its charge exactly once, a task stored as successful was settled exactly once to the quota its success reported or kept its charge where none was, and any other is unbilled |
| `TaskPolling.WinnerStores` | service/task_polling.go:423-481 | the winner's report is stored with its status and progress |
| `TaskPolling.WinnerTimesOut` | service/task_polling.go:55-83 | a winning timeout fails the task at 100% and refunds its charge, and a legacy task gets no bill |
| `TaskPolling.LoserDoesNothing` | service/task_polling.go:473-499 | whoever finds the task changed, or cannot write, changes and bills nothing |
| `TaskPolling.ReadTakesUnfinished` | model/task.go:292-315 | a poll gets a copy of exactly the tasks that have neither ended nor reached 100% |
| `TaskPolling.OnceExactlyWithoutRepeat` | service/task_polling.go:473-499 | a schedule bills at most once, whatever happens, exactly when no copy is processed twice between two reads |
| `TaskPolling.RepeatRefundsTwice` | service/task_polling.go:473-499 | a copy that already failed is refunded again when it is processed again, since no compare-and-set guards that branch |
| `TaskPolling.HandledOk` | service/task_polling.go:473-499 | processing a copy of an unfinished task bills at most once, because only the winner of the compare-and-set bills |
| `TaskPolling.TaskRow.UpdateVideoSingleTask` | service/task_polling.go:344-502 | the poll step by step leaves the specified row, bills and copy |
| `TaskPolling.TaskRow.Sweep` | service/task_polling.go:55-83 | one task of the timeout sweep leaves the specified row, bills and copy |
| `TaskPolling.TaskRow.UpdateWithStatus` | model/task.go:404-417 | the row is replaced exactly when the database works and its status is the expected one |
| `BodyStorage.StoragesAgree` | common/body_storage.go:47-81 | any session of reads, seeks, Bytes and closes on any file system: same replies exactly when no read with an empty buffer happens at or behind the end and no seek succeeds whose whence only the file system knows; the same view then, and always when the seeks are ordinary |
| `BodyStorage.SameStep` | common/body_storage.go:169-230 | one operation: replies differ exactly in those two cases, views only after such a seek, and Bytes leaves the cursor where it was |
| `BodyStorage.BodyCanBeReadAgain` | common/body_storage.go:47-81 | after any session that did not close it, rewinding and reading in any pieces that are large enough together gives the whole body, and so does asking for all bytes, from memory and from disk |
| `BodyStorage.ReadsDeliver` | common/body_storage.go:47-54 | in whatever pieces an open body is read, the pieces together are the bytes from the cursor on, and the cursor ends behind them |
| `BodyStorage.SeekMeans` | common/body_storage.go:56-63 | a seek counts from the start, the cursor or the end, and moves nothing when the target is negative or the origin unknown |
| `BodyStorage.DataStays` | common/body_storage.go:47-81 | no session changes the data, and a storage is closed exactly after a close |
| `BodyStorage.MemoryStorage.Close` | common/body_storage.go:65-72 | only the first close releases the counters |
| `BodyStorage.DiskStorage.Bytes` | common/body_storage.go:198-230 | three seeks and a full read return the whole body and restore the cursor |
| `BodyStorage.DiskStorage.Close` | common/body_storage.go:187-196 | only the first close releases the counters |
| `BodyStorage.Counters.DecrementDiskFiles` | common/disk_cache_config.go:115-123 | the counters go down and are clamped at zero |
| `BodyStorage.CreateBodyStorage` | common/body_storage.go:241-258 | the storage holds the body, lies on disk exactly when the disk is wanted, available and works, and is counted once |
| `BodyStorage.CreateBodyStorageFromReader` | common/body_storage.go:262-303 | the whole body or too large, by the same rule on both paths; nothing is counted on an error |
| `CacheCounters.CountersAreExact` | common/disk_cache_config.go:109-134 | in every interleaving of creates and repeated closes the counters are the number and bytes of the open storages whenever no create or close is under way |
| `CacheCounters.CountersNeverNegative` | common/disk_cache_config.go:115-134 | no counter ever goes below zero and the clamps are never reached |
| `CacheCounters.EveryStorageIsThere` | common/disk_cache_config.go:109-134 | after any run the storages are exactly the created ones, each with its kind and size |
| `CacheCounters.StoragesMoveOn` | common/disk_cache_config.go:109-134 | in every reachable state a create ends open after two steps and a close gone after two, a close takes effect only on an open storage, and no step moves another storage |
| `OggPages.WalkStream` | common/audio.go:204-249 | a prefix without "OggS" followed by any well-formed pages is walked at exactly the page starts, whatever the bodies contain, and yields the largest signed granule or 0 |
| `OggPages.WalkPages` | common/audio.go:207-249 | the same from any page start inside any data |
| `OggPages.LargestGranuleIs` | common/audio.go:228-232 | the result is the maximum of the granules and the start value |
| `OggPages.SumOfParts` | common/audio.go:235-247 | the size of a page body is the sum over its segment table, however that is cut |
| `OggPages.WalkOnAnyInput` | common/audio.go:207-249 | on every input the stops ascend, each is a complete header starting with "OggS", and the result is their maximum |
| `OggPages.GranuleRoundTrip` | common/audio.go:228-229 | every granule position in the int64 range survives eight little-endian bytes |
| `OggPages.EncodeRoundTrip` | common/audio.go:219-248 | an encoded page is a page, and the walk reads back the granule that was written |
| `OggPages.NextRound` | common/audio.go:207-249 | one round of the loop reads, recognises and skips as specified |
| `OggPages.GetOpusDuration` | common/audio.go:196-254 | the loop ends on every input and returns the granule of the walk over 48000 |

## Left out

- HTTP handlers, JSON binding, logging, response texts and notifications: input and output only
- payment provider SDKs, signatures, OAuth, passkeys and two-factor login: foreign calls and cryptography
- the regular-expression engine and the JSON parser: uninterpreted functions, so the theorems hold for any of them
- floating point: costs, ratios and quotas are real numbers, NaN and infinities only as invalid costs
- clocks: every time is a parameter; the log theorems assume a clock that never goes back
- database errors and process crashes between two writes, except where an action carries its own failure flag (adding quota, settling, saving, refunding, creating the cache file)
- OrderProgress.EveryCallReturns: which waiting thread gets a free lock is left open and no fairness is assumed, so one thread may wait for as long as new calls keep coming
- TaskPolling.EndedTaskIsBilledOnce: says nothing of runs with a bulk failure, a legacy timeout or an unpaid bill beyond BilledAtMostOnce; the first two bill nothing, by WinnerTimesOut and BulkFailsUnbilled
- MidjourneyRefund.RefundedExactlyOnce: a bulk failure refunds nothing, and a refund that fails in the database is not modelled
- OrderCredit.QuotaIsConserved: how the database rounds the float the Stripe path adds is a parameter, a fixed function of the amount
- OrderCredit.SuccessIsAccountedFor: assumes that an open subscription order and a top-up order never share a trade number, as their prefixes make sure; the subscription itself is not modelled
- failed orders that the Waffo and Waffo Pancake request paths save without looking at the stored row, and orders completed by another process
- UpstreamModels.CacheMatchesDetection: a selection that adds a name with a comma and also names patterns is covered neither by it nor by PlainCacheMatchesDetection
- UpstreamModels.ApplyAllIsFixpoint: pending names that read as patterns are not covered
- MultiKey.AutoDisableRefines: the status of the channel itself, derived from its keys, is not modelled
- key selection by polling or at random, key status pages and Vertex AI keys in append mode: they change none of the state modelled here
- PriceDiff.ListedExactly: two channels of one name are not covered; values that are arrays or objects are not modelled, since comparing them stops the program
- the conversion of a selected models.dev price into ratios: plain arithmetic per model
- MidjourneyRefund.ResponseSafeExactlyForDistinctIds: a response item for a task that was not asked for stops the program and is not modelled
- VideoBilling.Step: start time, finish time and fail reason of a task are not modelled, since no branch on money reads them; nothing in the repository calls this function, the loop that runs is the one of TaskPolling
- TaskPolling.Polled: how the adaptor or the tokens give the settled quota is a parameter; Suno tasks are not modelled
- BodyStorage.StoragesAgree: reader errors, offsets beyond the file system's limits and the cleanup of old cache files are not modelled, nor that the memory storage hands out its own bytes, which a caller could overwrite
- RateLimit.InMemoryRateLimiter.Request: a negative maximum, which stops the program, is not a request here
- the disk-cache size limit across threads: check and increment are separate steps, so no bound holds
- OggPages.GetOpusDuration: I/O errors are not modelled; other audio formats are handled by libraries
- retry loops of the relay, channel selection and billing sessions: in files this model does not cover
