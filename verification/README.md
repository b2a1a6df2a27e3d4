# new-api: a verified model of its self-contained state machines

`new-api` is a gateway in front of AI model providers: it authenticates users, keeps a quota
ledger, relays requests and reconciles its channels with the upstreams. Most of it is HTTP and
database plumbing. This project models the parts that are algorithms or protocols of their own and
proves what they are for. Run `dafny verify dfyconfig.toml`.

| file | models |
|---|---|
| `Common.dfy` | options and numbers shared by the components |
| `OrderLock.dfy` | the reference-counted per-order mutex of the payment callbacks, as an interleaved step system |
| `EpayWebhook.dfy` | crediting quota under that lock: duplicate Epay callbacks and manual completions |
| `BodyStorage.dfy` | the seekable request body, in memory or on disk, and the request context that hands it out |
| `StorageAccounting.dfy` | the usage counters under concurrent create and close calls |
| `Texts.dfy`, `ModelNames.dfy` | trimming, splitting and joining; the order-preserving algebra on model names |
| `UpstreamUpdate.dfy` | detecting and applying upstream model changes |
| `KeysetSweep.dfy` | the keyset-paged sweep over all enabled channels |
| `RateLimiter.dfy` | the in-memory sliding-window limiter and its background purge |
| `RatioDiff.dfy` | the price difference table, its two passes and its pruning |
| `ModelsDev.dfy` | choosing and publishing one price per model from the models.dev catalogue |
| `OggScan.dfy` | the resynchronising Ogg/Opus page scanner (section 6 of RFC 3533, section 4 of RFC 7845) |
| `VideoTask.dfy` | settling and refunding video tasks |
| `MidjourneyTask.dfy` | refunding failed Midjourney tasks behind a compare-and-set |
| `MultiKey.dfy` | the key table of multi-key channels and its six actions |
| `RedisCodec.dfy` | printing a struct to a Redis hash and parsing it back |

Sequential code that updates state in place is modelled by classes, arrays and loops whose
contracts tie the new state to a specification function of the old one; the properties are then
lemmas about that function. Concurrent code is a state machine whose steps are the single shared
operations, with any number of threads, and the properties hold in every reachable state.

Where the code does not do what it is for on every input, the model keeps the code's behaviour and
says exactly when it does:

- The limiter equals the full-history rule iff the limit is at least 1 and the window is at most one
  second longer than the expiration (`common/constants.go:205` asks for no longer).
- An added model name with a comma is torn apart by the comma-separated column and is detected
  again; ignoring, or adding, a name that begins with `regex:` changes what the rules silence, in
  three ways that are named and shown to be all.
- Disk and memory bodies differ on one operation only: an empty buffer offered at or past the end.
- Deleting the automatically disabled keys when all keys are disabled reports success but re-enables
  every key, because the empty text is not written while the emptied maps are. Deleting a key so
  that an empty one comes first or last shortens the key count by more than one, and times and
  reasons can be left beyond it; they stay in range iff every moved entry's index is below the count.
- A video task is conserved and refunded at most once because the polling query never returns a
  failed row; a direct call of the function on a failed row can refund it again.
- A Midjourney task is refunded at most once on every schedule iff every report below 100% gives a
  fail reason exactly with the status FAILURE, and no response lists a task twice. If a response may
  do so, no report whatever is safe.
- The price diff finds a null, or a difference hidden by a later upstream of the same name, and may
  then prune it away; which cells survive is stated for every input.
- The Redis codec loses a pointer to an empty string and any non-zero struct in silence, and reports
  an error on a value of an unsupported kind and on an object that has only skipped fields.

## Model

| member | source | states |
|---|---|---|
| OrderLock.StepKeepsInv | new-api/controller/topup.go:268-308 | one inductive invariant over program counters, reference counts, the map and createLock survives every step of any thread |
| OrderLock.RunKeepsInv | new-api/controller/topup.go:268-308 | so it holds in every state of every interleaving, for any number of threads and trade numbers |
| OrderLock.MutualExclusion | new-api/controller/topup.go:279-308 | at most one thread is between LockOrder(t) and the unlock in UnlockOrder(t) for one t |
| OrderLock.UnlockFindsOwnMutex | new-api/controller/topup.go:294-308 | the Load without any lock finds the very mutex this thread locked; the unlock hits a locked mutex; the entry tested for deletion is still its own |
| OrderLock.MapHoldsCountedOrders | new-api/controller/topup.go:278-308 | each count equals the number of threads counted in, and outside a createLock section the map holds exactly the counted trade numbers |
| OrderLock.DeletedEntryUnused | new-api/controller/topup.go:300-307 | when the entry is deleted no other thread holds or waits on that order's mutex |
| OrderLock.NoStrandedWaiter | new-api/controller/topup.go:279-308 | a waiter waits on the mutex the map still holds |
| OrderLock.IdleMeansEmpty | new-api/controller/topup.go:294-308 | the map is empty when all threads are idle |
| OrderLock.NoDeadlock | new-api/controller/topup.go:279-308 | while some thread is not idle, some such thread can move |
| OrderLock.BlockedThreadLocks | new-api/controller/topup.go:290-291 | in every run a thread that finds its mutex free holds exactly that mutex and order after its next step, and the mutex is locked |
| OrderLock.WorksOnLatestCall | new-api/controller/topup.go:279-308 | over any schedule a thread that has not returned works on the trade number of its latest call |
| OrderLock.LockOrderLocks | new-api/controller/topup.go:279-291 | when createLock and the order's mutex, if any, are free, the caller alone gets through LockOrder, counted in once more and holding the locked mutex the map has for the order |
| OrderLock.UnlockOrderUnlocks | new-api/controller/topup.go:294-308 | when createLock is free the holder alone gets through UnlockOrder, having unlocked its mutex, counted itself out and deleted the entry if it was the last |
| OrderLock.LockThenUnlock | new-api/controller/topup.go:279-308 | in any run in which nobody is counted in on t, a call of LockOrder(t) alone ends holding t, mapped to its locked mutex, and UnlockOrder(t) alone then ends with the thread idle and the map as before |
| EpayWebhook.StepKeepsInv | new-api/controller/topup.go:373-408 | lock invariant, current row copies, unique credits, gains and settlement survive every step, including failing database calls |
| EpayWebhook.OtherBodyKept | new-api/controller/topup.go:380-384 | under the lock nobody else's step makes a thread's copy of the order row stale |
| EpayWebhook.SaveLeadsToPayment | new-api/controller/topup.go:386-405 | an order saved as successful leaves that state only by being credited or by its failing quota increase |
| EpayWebhook.CreditedAtMostOnce | new-api/controller/topup.go:373-408 | over any interleaving of callbacks and manual completions each order is credited at most once, only once success is stored, and by a callback only for the Epay provider |
| EpayWebhook.GainIsSumOfCredits | new-api/controller/topup.go:392-405 | a user's total gain is the sum, over that user's credited orders as first stored, of the integer part of Amount times QuotaPerUnit, or of Money times it for a Stripe order completed by hand |
| EpayWebhook.CallbackCredits | new-api/controller/topup.go:380-405 | a callback that holds the lock of a pending Epay order and whose calls succeed stores it as successful with the reported payment method, adds the integer part of Amount times QuotaPerUnit to its user, and changes nothing else |
| EpayWebhook.CompletionCredits | new-api/model/topup.go:320-391 | a manual completion of a pending order worth at least one unit credits it in its one transaction |
| EpayWebhook.RefusedChangesNothing | new-api/controller/topup.go:375-385 | a callback for an unknown, settled or foreign order, and a completion of an unknown, settled or worthless one, change nothing |
| EpayWebhook.IdleMeansSettled | new-api/model/topup.go:320-391 | once all threads are idle, exactly the pending orders that became successful are credited, apart from those whose quota increase failed |
| BodyStorage.KindsDifferOnlyOnEmptyReadAtEnd | new-api/common/body_storage.go:47-81 | the two kinds answer alike iff the operation is not an empty read at or past the end of an open store, and change alike in any case |
| BodyStorage.KindsAgree | new-api/common/body_storage.go:169-230 | a sequence of operations gets the same replies from both kinds iff that case does not come up in it, and leaves both in the same state |
| BodyStorage.NonEmptyReadsAgree | new-api/common/body_storage.go:169-230 | so every sequence of non-empty reads, seeks, Bytes and Close gets the same replies from both |
| BodyStorage.SeekThenRead | new-api/common/body_storage.go:47-63 | a seek counts from the start, the position or the end and the next read goes on from there; a place before the start is refused without moving |
| BodyStorage.OpsKeepData | new-api/common/body_storage.go:47-230 | for both kinds: no sequence of operations changes the data, and only Close closes |
| BodyStorage.BodySurvivesConsumers | new-api/common/gin.go:36-45 | for both kinds: after a rewind a reader with any buffer sizes sees the whole original body, whatever earlier consumers did |
| BodyStorage.DrainReadsTheRest | new-api/common/body_storage.go:47-176 | for both kinds: repeated reads with room enough deliver exactly the bytes from the position on |
| BodyStorage.CacheStats.IncrementDiskFiles | new-api/common/disk_cache_config.go:109-112 | both disk counters grow, nothing else changes |
| BodyStorage.CacheStats.DecrementDiskFiles | new-api/common/disk_cache_config.go:115-122 | both disk counters shrink, clamped at zero |
| BodyStorage.CacheStats.DecrementMemoryBuffers | new-api/common/disk_cache_config.go:131-134 | both memory counters shrink, with no clamp |
| BodyStorage.MemoryStorage.Read | new-api/common/body_storage.go:47-54 | refines the abstract store: bytes delivered, new position, end and closed errors, the rest of the buffer untouched |
| BodyStorage.MemoryStorage.Seek | new-api/common/body_storage.go:56-63 | refines the abstract store, with negative targets refused and targets past the end allowed |
| BodyStorage.MemoryStorage.Bytes | new-api/common/body_storage.go:74-81 | all data, or the closed error; changes nothing |
| BodyStorage.MemoryStorage.Close | new-api/common/body_storage.go:65-72 | closes once; the counters are released once however often it is called |
| BodyStorage.DiskStorage.Read | new-api/common/body_storage.go:169-176 | refines the abstract store over the file position |
| BodyStorage.DiskStorage.Seek | new-api/common/body_storage.go:178-185 | refines the abstract store over the file position |
| BodyStorage.DiskStorage.Bytes | new-api/common/body_storage.go:198-230 | the whole file, with the position restored |
| BodyStorage.DiskStorage.Close | new-api/common/body_storage.go:187-196 | closes once: the temporary file is closed and removed, and the disk counters are released once |
| BodyStorage.CreateBodyStorage | new-api/common/body_storage.go:241-260 | always a fresh open storage with exactly the data at its start; on disk iff enabled, large enough, within the limit on disk usage and the disk works, and the usage then stays within that limit; counted once |
| BodyStorage.CreateBodyStorageFromReader | new-api/common/body_storage.go:262-303 | created iff reading works, the stream has at most maxBytes bytes and, where a large enough claim asks for the disk, the disk works; it then holds exactly those bytes; which error is returned; a rejected stream leaves every usage counter unchanged |
| BodyStorage.RequestContext.GetRequestBody | new-api/common/gin.go:36-84 | the stream is read once; every later call hands out the same storage, rewound, or fails iff it was closed |
| BodyStorage.RequestContext.UnmarshalBodyReusable | new-api/common/gin.go:108-155 | succeeds iff the body can be had and decodes; the stored body is then whole and rewound, wherever the decoder stopped |
| StorageAccounting.StepKeepsInv | new-api/common/disk_cache_config.go:109-134 | each counter equals what the storages' own progress says, and each storage has one worker, after every single atomic add |
| StorageAccounting.OneWorker | new-api/common/body_storage.go:187-196 | the swap on `closed` lets at most one call at a time work on a storage's counters |
| StorageAccounting.NoClamp | new-api/common/disk_cache_config.go:115-122 | what a call is about to subtract is still in the sum, so storing zero over a negative counter cannot happen |
| StorageAccounting.ClampNeverFires | new-api/common/disk_cache_config.go:109-134 | over any interleaving of creates and repeated closes no counter is clamped or negative |
| StorageAccounting.QuietMeansExact | new-api/common/body_storage.go:37-72 | when no call is in progress the counters are exactly the number and total size of the open storages of each kind |
| StorageAccounting.CreateCounts | new-api/common/body_storage.go:37-44 | a create call alone ends with an open storage whose one and size are in its kind's counters |
| StorageAccounting.CloseReleases | new-api/common/body_storage.go:65-72 | a close call alone on an open storage ends with it closed and its one and size taken out again |
| StorageAccounting.CloseCloses | new-api/common/body_storage.go:187-196 | in every interleaving a storage is closed once any Close of it has returned |
| Texts.TrimIsExact | new-api/controller/channel_upstream_update.go:97-102 | trimming removes all outer space and nothing else, and leaves exactly the trimmed strings alone |
| Texts.JoinComesBack | new-api/model/channel.go:289-294 | joining, stripping and splitting gives back a list iff it is storable: no part holds the separator and the outer parts are not empty |
| ModelNames.NormalizeMeaning | new-api/controller/channel_upstream_update.go:97-102 | normalising yields exactly the non-empty trimmed names, each once |
| ModelNames.NormalizeKeepsOrder | new-api/controller/channel_upstream_update.go:97-102 | in the order of their first occurrences |
| ModelNames.FilterMeaning | new-api/controller/channel_upstream_update.go:120-140 | subtract and intersect decide membership after normalising both sides |
| ModelNames.FilterKeepsOrder | new-api/controller/channel_upstream_update.go:120-140 | any two names that are left stand in the order of the normalised base |
| ModelNames.MergeModelNames | new-api/controller/channel_upstream_update.go:104-118 | the loop appends the new normalised names in order |
| ModelNames.MergeMeaning | new-api/controller/channel_upstream_update.go:104-118 | a merge is normal and holds exactly the names of both sides |
| ModelNames.ApplySelectedMeaning | new-api/controller/channel_upstream_update.go:142-147 | the result keeps what is not removed and has everything added, even if also removed |
| ModelNames.StoredModelsComeBack | new-api/model/channel.go:289-294 | a list of non-empty comma-free names survives the comma-separated column |
| UpstreamUpdate.CollectMeaning | new-api/controller/channel_upstream_update.go:176-235 | the pending lists name by name and in order: offered, not present, not an alias target, not ignored; present, not an alias source, not offered |
| UpstreamUpdate.PendingMeaning | new-api/controller/channel_upstream_update.go:204-226 | a name is pending iff it is offered, not present, the target of no alias, matched by no `regex:` rule's trimmed expression and equal to no other rule |
| UpstreamUpdate.EffectiveMeaning | new-api/controller/channel_upstream_update.go:797-802 | a request comes down to exactly these names in its own order: adds and ignores that are pending as adds, and removes that are pending as removes and not added |
| UpstreamUpdate.ModelsAfterApply | new-api/controller/channel_upstream_update.go:804-809 | the models that are read back keep, in order, what is not removed and gain the added names at the end in the order of the request, if these are comma-free |
| UpstreamUpdate.PendingAfterApply | new-api/controller/channel_upstream_update.go:815-818 | the pending lists lose exactly the added and ignored, and the removed names, and keep their order |
| UpstreamUpdate.IgnoredAfterApply | new-api/controller/channel_upstream_update.go:811-814 | the ignore list gains the ignored names at its end and loses the added ones |
| UpstreamUpdate.DetectAfterApply | new-api/controller/channel_upstream_update.go:783-832 | for any request whose selected names do not look like patterns, detecting again returns exactly the stored remaining lists, in order, iff no added name contains a comma |
| UpstreamUpdate.DetectAfterApplyWithPatterns | new-api/controller/channel_upstream_update.go:783-832 | for any request with comma-free adds, whatever the names look like, detect and apply commute iff no ignored pattern name silences another listable name, every ignored pattern name is itself silenced, and every name silenced by a rule that an add drops is silenced by another |
| UpstreamUpdate.ThreeWays | new-api/controller/channel_upstream_update.go:204-226 | these are the only ways an apply changes what the rules silence |
| UpstreamUpdate.PlainNamesStaySilent | new-api/controller/channel_upstream_update.go:204-226 | the rules do so whenever no selected name begins with `regex:` |
| UpstreamUpdate.PatternNameSilencesOthers | new-api/controller/channel_upstream_update.go:204-226 | ignoring a pending name that reads as a pattern silences every other pending name it matches |
| UpstreamUpdate.PatternNameExample | new-api/controller/channel_upstream_update.go:204-226 | a concrete instance |
| UpstreamUpdate.AutoAddSettles | new-api/controller/channel_upstream_update.go:360-407 | after automatic adding, detecting again finds nothing more to add and the same removes iff no added name contains a comma |
| UpstreamUpdate.AutoAddMeaning | new-api/controller/channel_upstream_update.go:384-392 | automatic adding appends every pending name, if none contains a comma |
| UpstreamUpdate.Channel.ApplyUpstreamModelUpdates | new-api/controller/channel_upstream_update.go:783-832 | the loaded channel and the stored row; the names reported as added and removed, as selected from the request; when models count as changed; and which of two failing writes gives an error |
| UpstreamUpdate.Channel.CheckAndPersist | new-api/controller/channel_upstream_update.go:360-407 | when a detection is skipped, what it leaves in the channel and the row, that the number reported as added is the number of pending names, and the error of a failing fetch or of either write |
| KeysetSweep.ExpectedMeaning | new-api/controller/channel_upstream_update.go:540-560 | what a sweep must process is every enabled id exactly once, ascending |
| KeysetSweep.OrderedOfGreater | new-api/controller/channel_upstream_update.go:543-552 | restricting to larger ids and ordering commute |
| KeysetSweep.QueryContinues | new-api/controller/channel_upstream_update.go:543-560 | the query after the k-th id returns exactly the next ones, up to a batch |
| KeysetSweep.Sweep | new-api/controller/channel_upstream_update.go:540-608 | terminates and processes exactly the expected ids in order, with one query more than there are full batches, also for exact multiples; a failing query leaves a prefix |
| RateLimiter.InMemoryRateLimiter.Request | new-api/common/rate-limit.go:45-70 | the key's queue and the decision follow the specification, other keys are untouched |
| RateLimiter.InMemoryRateLimiter.ClearExpiredItems | new-api/common/rate-limit.go:28-42 | one purge leaves exactly the queues whose newest entry lies within the expiration, unchanged |
| RateLimiter.RecentMeaning | new-api/common/rate-limit.go:45-70 | the rule counts the accepts whose time lies after now minus the window |
| RateLimiter.SameDecision | new-api/common/rate-limit.go:45-70 | comparing the oldest kept entry decides like counting the whole history |
| RateLimiter.PurgeKeepsRepresentation | new-api/common/rate-limit.go:28-42 | what a purge forgets is out of every window from then on |
| RateLimiter.FollowsRuleFrom | new-api/common/rate-limit.go:28-70 | from any represented state, every later decision equals the full-history rule, purges interleaved anywhere |
| RateLimiter.LimiterFollowsRule | new-api/common/constants.go:205-206 | limiter and rule agree on every schedule iff the limit is at least 1 and the window at most one second longer than the expiration |
| RateLimiter.LongWindowBreaksRule | new-api/common/constants.go:205-206 | every longer window has a schedule on which the limiter accepts too much |
| RateLimiter.ZeroLimitBreaksRule | new-api/common/rate-limit.go:45-70 | with limit 0 the first request is accepted all the same |
| RateLimiter.QuotaHolds | new-api/common/rate-limit.go:45-70 | no window of length D, wherever it starts, holds more than N accepts |
| RatioDiff.BuildDifferences | new-api/controller/ratio_sync.go:536-696 | for every input: a cell's entry is the full entry cut down to the upstreams that differ somewhere, present iff the cell is wanted and some of those is not "same"; no model is left without entries |
| RatioDiff.TrustIn | new-api/controller/ratio_sync.go:566-599 | a model is untrusted iff its prices are the placeholders 37.5 and 1 within the tolerance |
| RatioDiff.Compare | new-api/controller/ratio_sync.go:602-656 | an entry is made iff some upstream has a value there and the local one is missing or differs; it lists every upstream |
| RatioDiff.Speakers | new-api/controller/ratio_sync.go:658-667 | the upstreams to keep are exactly those showing a value of their own in some entry |
| RatioDiff.Prune | new-api/controller/ratio_sync.go:669-693 | pruning cuts every entry down to the kept upstreams, and drops exactly the entries where nothing but "same" is left |
| RatioDiff.ReportedIff | new-api/controller/ratio_sync.go:536-696 | for every input: a wanted cell is reported iff some upstream, the last of its name, has a tangible differing value in it, or is listed for another cell and has nothing there against a local value |
| RatioDiff.CleanDiffIsExact | new-api/controller/ratio_sync.go:536-696 | with distinct names and without nulls and "same" texts, nothing wanted is pruned: a cell is reported iff it is wanted |
| RatioDiff.ValuesEqualMeaning | new-api/controller/ratio_sync.go:48-62 | two numbers are equal iff less than 1e-9 apart in either direction, other values iff identical |
| RatioDiff.PlainDiffIsExact | new-api/controller/ratio_sync.go:536-696 | over the tables themselves: a model's field is reported iff it is one of the synchronised fields and some upstream has a value there while the local one is missing, or both are numbers at least 1e-9 apart, or they are not both numbers and differ |
| RatioDiff.PlainEntryMeaning | new-api/controller/ratio_sync.go:605-636 | over the tables themselves: an entry shows an upstream's value if it is news, null if it has none where the local one is set, and "same" otherwise |
| RatioDiff.PlaceholderMeaning | new-api/controller/ratio_sync.go:566-599 | a model is not trusted iff its ratio lies within 1e-9 of 37.5 and its completion ratio within 1e-9 of 1 |
| RatioDiff.FieldsMeaning | new-api/controller/ratio_sync.go:64-75 | the ten synchronised fields by name |
| RatioDiff.EntryMeaning | new-api/controller/ratio_sync.go:536-696 | for every input: a reported entry has the local value and lists exactly the upstreams, the last of each name, that differ somewhere in the comparison, each with its value, null or "same", and its confidence |
| RatioDiff.NullIsDropped | new-api/controller/ratio_sync.go:616-693 | a lone null is wanted but not reported |
| RatioDiff.RepeatedNameIsDropped | new-api/controller/ratio_sync.go:633-635 | of two upstreams with one name the last wins, and the other's difference is not reported |
| ModelsDev.CandidateMeaning | new-api/controller/ratio_sync.go:845-879 | a cost is a candidate iff a completion ratio for it exists: non-negative prices, output a multiple of input |
| ModelsDev.ChoiceMeaning | new-api/controller/ratio_sync.go:881-893 | over providers in ascending order the choice is a candidate, non-zero iff any is, and costs less than 1e-9 more than every non-zero one, although the comparison is not transitive |
| ModelsDev.FirstOfCheapest | new-api/controller/ratio_sync.go:881-893 | every non-zero candidate before the choice costs more than it, so between equal prices the first provider wins |
| ModelsDev.UnsortedProvidersDrift | new-api/controller/ratio_sync.go:881-893 | in descending order the choice drifts beyond the tolerance |
| ModelsDev.CandidatesMeaning | new-api/controller/ratio_sync.go:917-950 | the candidates of a model are exactly the valid costs listed for it, in the order of the providers |
| ModelsDev.Select | new-api/controller/ratio_sync.go:917-950 | a model is selected iff some provider lists a valid cost; the choice is non-zero if any is, within 1e-9 of the cheapest non-zero, and of the first provider at its very price |
| ModelsDev.RoundingIsClose | new-api/controller/ratio_sync.go:698-700 | a ratio becomes the nearest multiple of a millionth, halves away from zero, so it moves by at most 5e-7 |
| ModelsDev.Convert | new-api/controller/ratio_sync.go:906-985 | fails iff no valid cost is listed; publishes exactly the listed models, each as the exact quotients of its choice rounded to six decimals; completion and cache ratios only for models with a model ratio |
| OggScan.GranuleRoundTrip | new-api/common/audio.go:226-231 | the signed 64-bit little-endian granule position reads back over its whole range |
| OggScan.GetOpusDuration | new-api/common/audio.go:196-254 | terminates on every byte sequence and returns the scan's result over 48000 |
| OggScan.ScanMeaning | new-api/common/audio.go:196-254 | on any bytes only places reading "OggS" are visited, ascending and at least a header apart, and the result is the greatest visited granule position or the start value |
| OggScan.PageReadsBack | new-api/common/audio.go:226-248 | a well-formed page of RFC 3533 section 6 is recognised with its granule position and its length |
| OggScan.EncodedPagesAt | new-api/common/audio.go:204-252 | the encoding of any list of pages reads as those pages back to back |
| OggScan.ScanOfPages | new-api/common/audio.go:204-252 | where pages stand back to back the scan visits exactly the page starts |
| OggScan.ScanFindsAllPages | new-api/common/audio.go:196-254 | after leading bytes without "OggS", any list of well-formed pages is visited exactly at the page starts even if payloads contain "OggS", and the result is the larger of 0 and the greatest granule position |
| OggScan.LargestGranuleMeaning | new-api/common/audio.go:233-236 | that result is an upper bound of the granule positions and the start value, and one of them |
| VideoTask.SettleTokens | new-api/controller/task_video.go:153-234 | the charge becomes what the tokens cost at both ratios, or stays if the transfer fails, and the balance moves by the difference |
| VideoTask.UpdateVideoSingleTask | new-api/controller/task_video.go:127-276 | one poll's whole effect on row, balance and refunds, whichever database calls fail |
| VideoTask.SuccessIsCharged | new-api/controller/task_video.go:143-234 | a success is charged the integer part of tokens times model ratio times group ratio, if the model is priced by tokens, and the balance moves by the difference; finish time, progress and result are recorded |
| VideoTask.FailureIsRefunded | new-api/controller/task_video.go:241-276 | a failure ends the row and pays a positive charge back, unless the task had failed before |
| VideoTask.RunningIsRecorded | new-api/controller/task_video.go:133-142 | any other known status is recorded with its progress and moves no quota |
| VideoTask.PollConserves | new-api/controller/task_video.go:127-276 | one poll conserves balance plus outstanding charge iff its guards say so: no failed task revived with a charge, settlements stored, refunds possible |
| VideoTask.PollsConserve | new-api/model/task.go:306-315 | with persistence succeeding and rows chosen by the polling query, any sequence of reports conserves it, unless a task with a negative charge fails |
| VideoTask.RefundedAtMostOnce | new-api/model/task.go:306-315 | with rows chosen by the polling query a task is refunded at most once, only if it ends as failed, whatever upstream reports and whatever calls fail |
| VideoTask.FinishedStays | new-api/model/task.go:306-315 | a row the query filters out is never touched again |
| VideoTask.PollIsIdempotent | new-api/controller/task_video.go:127-276 | the same report again changes nothing |
| VideoTask.DirectCallsRefundAgain | new-api/controller/task_video.go:241-276 | called directly on a failed row, which the polling query does not return, the function takes a failure back, and a further failure refunds the charge again |
| MidjourneyTask.RefundStartsIff | new-api/controller/midjourney.go:121-180 | for a poller with a current copy and an item in time: the item starts a refund exactly when it reports a failure, iff the report, if below 100%, gives a reason exactly for FAILURE |
| MidjourneyTask.FailureIsPaidBack | new-api/controller/midjourney.go:121-196 | such a poller's failing or late item, and its refund, leave the row failed and finished and the charge with its user |
| MidjourneyTask.OtherReportsAreStored | new-api/controller/midjourney.go:121-174 | any other item is stored as it is and refunds nothing |
| MidjourneyTask.WriteKeepsInv | new-api/model/midjourney.go:165-171 | the first item for a loaded task, if it wins its compare-and-set, starts from a row that has not failed, so nobody else is refunding it |
| MidjourneyTask.ScheduleKeepsInv | new-api/controller/midjourney.go:121-196 | so over any schedule of sane reports in which no response lists a task twice, with other pollers and bulk failures interleaved |
| MidjourneyTask.RefundedAtMostOnce | new-api/controller/midjourney.go:121-196 | on those schedules each task is refunded at most once, only after its row failed, and gains equal the refunded charges |
| MidjourneyTask.FailuresAreRefunded | new-api/controller/midjourney.go:155-196 | on those schedules a charged task that had not failed at first and is not failed in bulk is, once its row says FAILURE, refunded, being refunded, or had its refund call fail |
| MidjourneyTask.RefundsAreExactlyFailures | new-api/controller/midjourney.go:121-196 | and once no refund of it is under way and none failed, it is refunded iff it had a charge, had not failed at first and has failed now |
| MidjourneyTask.RefundedOnceIff | new-api/controller/midjourney.go:121-196 | where no response lists a task twice, no schedule from any rows refunds a task twice iff every report upstream may send is sane |
| MidjourneyTask.RepeatsAreNeverSafe | new-api/controller/midjourney.go:121-196 | where a response may list a task twice, no schedule refunds twice iff upstream sends no report at all |
| MidjourneyTask.ReasonAloneRefundsTwice | new-api/controller/midjourney.go:167-180 | every fail reason without FAILURE below 100% lets two pollers refund one task |
| MidjourneyTask.FailureAloneRefundsTwice | new-api/controller/midjourney.go:126-180 | every FAILURE without a reason below 100% leaves a failed row unfinished, which two late pollers refund |
| MidjourneyTask.FailureAgainRefundsTwice | new-api/controller/midjourney.go:121-180 | every failure listed twice in one response is refunded twice, as the second item works on the changed copy |
| MidjourneyTask.TakenBackRefundsTwice | new-api/controller/midjourney.go:121-180 | anything else listed again takes a timeout failure back, and another poller's older copy refunds it again |
| MultiKey.KeptMeaning | new-api/controller/channel.go:1675-1765 | the surviving indices, ascending: all but the deleted one, or all not disabled automatically |
| MultiKey.DeleteKeyRemovesOne | new-api/controller/channel.go:1675-1708 | delete_key leaves all keys but the one at the index, in order |
| MultiKey.DeleteDisabledKeepsRest | new-api/controller/channel.go:1740-1768 | delete_disabled_keys keeps exactly the keys whose status is not 3, so also those disabled by hand |
| MultiKey.AcceptedMeaning | new-api/controller/channel.go:1497-1800 | when each action goes through: an index within the size, some enabled key, more than one key, some key of status 3 |
| MultiKey.BuildMeaning | new-api/controller/channel.go:1675-1780 | keys and all three maps of the new table are the old ones read through the surviving indices |
| MultiKey.WithoutKey | new-api/controller/channel.go:1675-1708 | the loop of delete_key builds that table |
| MultiKey.WithoutDisabled | new-api/controller/channel.go:1740-1768 | the loop of delete_disabled_keys builds that table and counts the deleted keys |
| MultiKey.DeletionIsFaithful | new-api/controller/channel.go:1653-1798 | a deletion leaves exactly the surviving keys, in order, iff they can be stored as text |
| MultiKey.DeletionCompacts | new-api/controller/channel.go:1653-1798 | it is then a consistent compaction: size equals the key count, and every survivor keeps its status and, if disabled, time and reason, at its new index |
| MultiKey.DeletingAllReenablesAll | new-api/model/channel.go:526-575 | deleting disabled keys when all are disabled deletes none and enables all |
| MultiKey.SettingMeaning | new-api/controller/channel.go:1497-1651 | what the four other actions do to each key's status |
| MultiKey.SettingEntries | new-api/controller/channel.go:1497-1651 | enabling drops the time and reason of that key, or all of them; disabling leaves them |
| MultiKey.SettingKeepsTidy | new-api/controller/channel.go:1497-1651 | the four other actions leave the keys alone and no entry out of range |
| MultiKey.StatusesInRange | new-api/model/channel.go:526-575 | after every accepted action, from any row, no status entry lies at or beyond the size |
| MultiKey.DeletionKeepsRange | new-api/controller/channel.go:1653-1798 | after an accepted deletion, from any row, all entries are in range iff every moved time and reason gets an index below the number of keys that the stored text counts |
| MultiKey.ActionsKeepRange | new-api/controller/channel.go:1497-1800 | throughout any sequence of the six actions no entry is out of range iff its accepted deletions meet that condition |
| MultiKey.ActionsKeepTidy | new-api/controller/channel.go:1497-1800 | throughout any sequence the row also agrees with its key text iff those deletions moreover leave no empty JSON array |
| MultiKey.LostKeyStrandsEntries | new-api/controller/channel.go:1653-1731 | deleting the first of the keys "x", "" and "a" leaves one key, and a time and a reason at index 1 |
| MultiKey.Channel.Save | new-api/model/channel.go:526-575 | the row written: keys counted again, out-of-range statuses dropped, an empty key text not written |
| MultiKey.Channel.ManageMultiKeys | new-api/controller/channel.go:1497-1800 | each action's stored row, and when it is rejected with nothing changed |
| RedisCodec.IntRoundTrip | new-api/common/redis.go:107-159 | printing and parsing a decimal agree on the whole 64-bit range and on nothing beyond it |
| RedisCodec.HSetObj | new-api/common/redis.go:107-159 | the loop over the fields fills the hash as specified |
| RedisCodec.HGetObj | new-api/common/redis.go:161-239 | the loop sets the fields in place and stops at the first failure |
| RedisCodec.EncodeMeaning | new-api/common/redis.go:118-145 | the hash holds the printed form of exactly the fields that are not DeletedAt |
| RedisCodec.PrintedMeaning | new-api/common/redis.go:118-145 | the text of each kind of field: strings as they are, booleans as true and false, integers in digits, nil pointers as nothing |
| RedisCodec.DigitsMeaning | new-api/common/redis.go:118-145 | integers are printed in decimal digits without leading zeros |
| RedisCodec.FieldRoundTrip | new-api/common/redis.go:185-236 | a printed field parses back iff it is a string, integer or bool, a pointer to one other than "", a zero struct, a nil pointer, or a pointer to a zero struct that prints as something; and it is an error iff it is of an unsupported kind or a printed pointer to one |
| RedisCodec.RoundTrip | new-api/common/redis.go:107-239 | decoding an encoded object into a fresh one gives back every field but DeletedAt iff some field is not a DeletedAt and every one parses back so; it reports an error iff all are DeletedAt or some field is an error |

## Left out

- HTTP, gin contexts, JSON, logging, audit records, notifications, the web front end: I/O and presentation.
- Database and Redis transport: a table is a map or a sequence, a call succeeds or fails as a whole, and its outcome is a parameter. User and channel caches and batched quota updates are not part of this model.
- The payment signature and the queries around the callbacks. The other providers and the subscription orders take the same per-order lock, so what `OrderLock.dfy` proves holds for them too; what they do under it is left out, and so are invitation rebates.
- OrderLock is a state machine and not a class, because its operations are concurrent. Fairness of Go's mutexes is left out, so waiting threads are shown not to be stuck together, not to be served in order.
- Midjourney and Epay rows are values in a map. The assignments of one response item to the poller's copy are one step; the changed copy is kept for further items. The video task, which is polled sequentially, is a class; two processes polling the same video task at once are left out.
- `controller/task_video.go` has no caller at present: the loop in `service/task_polling.go` calls a function of its own, with the billing behind a compare-and-set, which is not part of this model. The query that feeds the loop is.
- Floating point and the decimal library: reals, so rounding in the last binary place, NaN and infinities do not occur. Go's numeric types of a pricing value are one kind, and a value that is an array or an object (on which the comparison of the original panics) does not occur.
- Regular expressions of ignore rules, JSON key arrays, time parsing: parameters.
- Fixed-width integers, except where they matter: the granule position and the Redis integers are 64-bit; quotas, counters and sizes are unbounded.
- In the Redis codec: field types with a `String` method of their own, whose printed form differs from their value, and unexported fields.
- DetectAfterApply: requires that no selected name looks like a pattern, and DetectAfterApplyWithPatterns that no added name has a comma; for a request with both kinds of names no condition is stated, as the torn pieces of a name can coincide with other names.
- Trimming treats the characters of `Texts.IsSpace` as white space; normalisation of Unicode is left out.
- Age-based sweeping of cache files, `SyncDiskCacheStats`, the reset functions and `CleanupBodyStorage`: they overwrite or approximate the counters.
- In `StorageAccounting` a storage's own mutex is left out, which only allows more interleavings. In `BodyStorage` files are read by one process at a time and short reads happen only at the end.
- Real time, sleeping, tickers and the pacing between channels: time is an input. The limiter's clock is assumed not to go back.
- The sweep's table does not change while it is swept.
- Maps iterated in Go's random order are iterated in any order, except `mergeModelNames` and the providers, whose order the code fixes.
- The reading of the channel before the per-channel lock in `ManageMultiKeys` (two requests at once), its status query and its paging.
- The OpenRouter conversion, the fetching of price lists, the other audio formats, relay retries, crypto, passkeys and option tables: thin wrappers or plumbing that would add only easy members.
