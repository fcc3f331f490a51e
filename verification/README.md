# A Dafny model of the AWS log processor

An SQS message names S3 objects holding AWS access logs. The Lambda handler reads each object
through a pool of parsing workers, merges what all messages yield, asks the licence engine whether
the batch may proceed, sends the entries to an OTLP endpoint in batches, and answers SQS with the
ids of the messages that failed. This project models five pieces of that system and proves what
holds over all their inputs, runs and interleavings, up to one statement across all of them: a
message that is acknowledged has been delivered.

| file | piece |
|---|---|
| `ReaderPipeline.dfy`, `ParquetRows.dfy`, `CountingReader.dfy` | the S3 readers: one producer, N workers, a closer and a collector over two bounded channels; the parquet producer that reuses its row buffer; byte counting |
| `Batching.dfy`, `RetryLoop.dfy`, `SendLogs.dfy` | the OTLP sender: grouping and batching, the retry loop, bounded concurrent workers with an error slot and cancellation |
| `RegistryModel.dfy`, `RegistryQuery.dfy`, `CloudWatchRegistry.dfy`, `RegistrySystem.dfy`, `RegistryCalls.dfy` | the resource registry: one container's methods, the paginated query, any number of containers with overlapping calls over one heartbeat store, and how the former are runs of the latter |
| `LicenseModel.dfy`, `Quota.dfy`, `EnforcerModel.dfy`, `Enforcer.dfy`, `EnforcerMeaning.dfy`, `EnforcerTheorems.dfy` | licence errors, entitlement keys, quota trackers, the enforcement decision step by step, as a function and as a relation over its inputs, and what it guarantees |
| `BatchMerge.dfy`, `MergeRuns.dfy`, `BatchHandler.dfy`, `LicenceGate.dfy` | the handler: one message, the goroutines merging under a mutex, the handler around them, and which batches its two licence checks stop |
| `EndToEnd.dfy` | the composition |
| `Seqs.dfy`, `Strings.dfy` | shared sequence and string facts |

How the model is built:

- Concurrent code is a step system: `Enabled` says when a goroutine can take a step, `Apply` what it
  does, `IsRun` and `Exec` range over all step lists. A statement about every run is a statement
  about every interleaving. A send on a closed channel is an enabled step that panics, so that
  "never panics" is something to prove.
- Sequential code that updates state is imperative: classes with the source's fields, methods with
  its loops and early returns, each proved equal to a specification function. What that function
  means is then stated without it, over the inputs alone (lines, replies, options, keys), and proved
  by lemmas, so that a function and a method that go wrong together are still caught.
- Clocks, environment variables, HTTP replies, CloudWatch replies, token verification, environment
  classification and scope matching are parameters: arbitrary, and fixed where the source reads them
  within one decision.

Where the code differs from what its comments or documentation say, the model follows the code:

- `otlp_client.go:346` honours Retry-After on every retryable status; its comment speaks of 429 and
  503. The backoff product is scaled to nanoseconds in 64 bits and wraps from attempt 35 on
  (`RetryLoop.BackoffExact`).
- With `MAX_CONCURRENT` 0 the sender returns only once its caller's context has ended, and the
  handler waits for ever (`SendLogs.NoPermitsNeverReturns`, `MergeRuns.NoPermitsNeverJoins`).
- The option comment calls "warn" the default mode; an unset or "auto" mode is strict whenever a
  production indicator is found or no free use is granted.
- A message whose body does not parse is acknowledged and never reported. A licence abort that
  discards acknowledges messages that had already failed, and one to the dead-letter queue reports
  those twice (`EndToEnd.ReportedHowOften`).
- A heartbeat slot is key + NUL + resource, so keys must be free of NUL
  (`RegistryModel.HbKeysCollide`). A clock that reads exactly 0, as one anchored to a message stamped in the
  first second of 1970 would, defeats the warning limiter (`FairUseLimiter.LimiterHoldsExactly`).
  A message more than 15 minutes old has its batch evaluated at its own time, so a container's times
  can run backwards; its heartbeats may then be suppressed by later ones
  (`RegistryCalls.SeenWithinMinuteExactly`). A licence whose id is blank shares the key "unlicensed"
  (`LicenseModel.KeyIsBlankExactly`). Free keys would be ambiguous if the classification of
  environments, which is not part of this model, accepted nested names; the documented ones hold no
  slash (`LicenseModel.FreeKeysCollideExactly`, `LicenseModel.FreeKeysApart`).
- Enforcement can return an error beside a valid status, and neither status nor error at all
  (`EnforcerTheorems.ValidErrorIsTheRegistrys`, `EnforcerTheorems.NothingAtAllExactly`). A preflight
  given the container's resource tracker can refuse too much (`EnforcerTheorems.PreflightIsSoundExactly`);
  the handler gives it none.

`dafny verify dfyconfig.toml` checks the whole project.

## Model

| member | source | states |
|---|---|---|
| ReaderPipeline.EveryReturnDelivers | pkg/processor/base.go:85-150 | in every interleaving, for any worker count, channel capacity, input, skip and parse function, each entry is returned exactly as often as an item read is not skipped and parses to it, the error is the reader's own, and reader and workers have all finished before it is read |
| ReaderPipeline.EveryRunIsSafe | pkg/processor/base.go:96-146 | no interleaving ever sends on or closes a closed channel, both buffers stay within capacity, the pool keeps its size, at least one worker, and no entry is ever collected more often than an item read is not skipped and parses to it |
| ReaderPipeline.EveryRunEnds | pkg/processor/base.go:96-146 | no run is longer than the input allows and a run that has not returned has an enabled step: no deadlock, no livelock |
| ReaderPipeline.StepKeepsOwed | pkg/processor/base.go:96-144 | each step of each goroutine conserves, for every entry, how often it has been or will be delivered |
| ReaderPipeline.StepKeepsInv | pkg/processor/base.go:91-138 | the closing order: lines are closed only after the last send, entries only after all workers left |
| ReaderPipeline.Progress | pkg/processor/base.go:96-144 | in every reachable state but the final one some goroutine can move |
| ReaderPipeline.MeasureFalls | pkg/processor/base.go:96-144 | every step lowers a measure over unread, queued, held and collected items |
| ParquetRows.Produce | pkg/processor/base.go:304-322 | each row is sent in a cell of its own; right after each send, and after each overwrite of the buffer, the cells sent so far hold the rows read so far, in order |
| CountingReader.CountingReader.Drain | pkg/processor/base.go:27-51 | read to the end, the tracker has counted every byte delivered, the sum of the reads where none reports a negative count, and nothing else of it has changed |
| Batching.GroupByResource | pkg/sender/otlp_client.go:123-142 | one group per resource key, holding that resource's records in input order under the stamped attributes of its first entry |
| Batching.RecordsInOrder | pkg/sender/otlp_client.go:126-142 | the records of a resource follow the order of the input, piece by piece, and hold none of another resource |
| Batching.CutGroup | pkg/sender/otlp_client.go:163-178 | batches of one group are non-empty, full but for the last, and together are the group's records in order |
| Batching.GroupsKeepEveryRecord | pkg/sender/otlp_client.go:123-161 | for any iteration order of the map no record is lost, doubled or moved to another resource |
| Batching.PrepareBatches | pkg/sender/otlp_client.go:123-178 | the batches carry each input record exactly once under its own resource and the stamped attributes of that resource's first entry; sizes are within the limit and add up to the input |
| RetryLoop.SendWithRetry | pkg/sender/otlp_client.go:269-364 | for any script of replies and cancellations: at most MaxRetries + 1 posts, the first 2xx or non-retryable reply ends the call, and each wait is what the reply just before it asked for, capped at 30 s, or else the backoff |
| RetryLoop.DescriptionIsComplete | pkg/sender/otlp_client.go:283-363 | that description leaves one possible outcome, post count and wait list per script |
| RetryLoop.SentMeansAcceptedOnce | pkg/sender/otlp_client.go:319-333 | success means exactly one 2xx reply, failure of any kind means none |
| RetryLoop.RetryAfterGoverns | pkg/sender/otlp_client.go:283-352 | each wait of a call is fixed by the reply just before it: a Retry-After of s > 0 seconds means s seconds, at most 30, and any other reply means the backoff |
| RetryLoop.BackoffExact | pkg/sender/otlp_client.go:286-289 | with base 1 the wait before attempt k is 2^(k-1) s if and only if k is at most 34, and never more |
| RetryLoop.BackoffFits | pkg/sender/otlp_client.go:286-289 | with any base the wait before attempt k is base * 2^(k-1) cut to whole seconds, as long as its nanoseconds fit into 64 bits |
| RetryLoop.TotalWaitExact | pkg/sender/otlp_client.go:284-297 | without Retry-After, r waits add up to at most 2^r - 1 s, and to exactly that if and only if r is at most 34 |
| RetryLoop.TotalWaitBound | pkg/sender/otlp_client.go:284-352 | whatever the replies ask for, r waits add up to at most 30 r + 2^r - 1 s |
| RetryLoop.CallWaitsAtMost | pkg/sender/otlp_client.go:269-364 | the same bound for a whole call in terms of its posts, a last wait cut short by the context counted in full |
| RetryLoop.OnlyPassingFailuresAreRetried | pkg/sender/otlp_client.go:256-363 | over a whole call: every reply but the last was a network error, 408, 429 or 500 to 599; it succeeds exactly on a status of 200 to 299; it stops at a passing failure only when MaxRetries + 1 attempts or the context are used up; a status is rejected exactly if it is none of these |
| RetryLoop.EveryScriptEnds | pkg/sender/otlp_client.go:283-363 | every sequence of replies leads a call whose context goes on to an outcome other than cancellation |
| SendLogs.EveryRunIsSafe | pkg/sender/otlp_client.go:146-214 | at most MaxConcurrent batches are in flight, none is accepted twice, and a returned call has left no worker behind |
| SendLogs.NilMeansDelivered | pkg/sender/otlp_client.go:146-231 | a nil return means every batch was launched and got exactly one 2xx reply, and totalSent is the number of records in the batches |
| SendLogs.ErrorIsTheBatchsOwn | pkg/sender/otlp_client.go:196-228 | an error returned is that of a batch that was not accepted, and is a mere cancellation only if the caller's own context ended |
| SendLogs.EveryRunEnds | pkg/sender/otlp_client.go:157-228 | with a permit, no run exceeds a bound linear in the batches, and one that has not returned can go on without the caller's context ending, whatever the servers reply to the batches still out |
| SendLogs.PostingFinishes | pkg/sender/otlp_client.go:196-204 | every sequence of replies that has nothing to do with the context lets a posting worker end its call |
| SendLogs.StepKeepsInv | pkg/sender/otlp_client.go:157-228 | permits, total and accepted replies agree with where every worker stands, and the first error is stored before the first internal cancel |
| SendLogs.NoPermitsNeverReturns | pkg/sender/otlp_client.go:150-195 | with no permit and something to send, the call returns only as cancelled by its caller |
| CloudWatchRegistry.CloudWatchRegistry.FilterHeartbeatsToPublish | pkg/license/cloudwatch_registry.go:164-177 | lists once each exactly the inputs without a heartbeat in the last minute |
| CloudWatchRegistry.CloudWatchRegistry.PublishHeartbeats | pkg/license/cloudwatch_registry.go:188-226 | when chunk k of 20 fails, exactly the chunks before it are stored and exactly their resources marked |
| CloudWatchRegistry.CloudWatchRegistry.AddInputs | pkg/license/cloudwatch_registry.go:239-246 | the fast path's loop adds the inputs and counts exactly the new ones |
| CloudWatchRegistry.CloudWatchRegistry.EvaluateActiveCount | pkg/license/cloudwatch_registry.go:228-291 | cache, count and error after an evaluation are those of the specification on all three paths; whichever pages fail, a service that does not lie is answered with a right set or a failure, never part of a set |
| CloudWatchRegistry.CloudWatchRegistry.RegisterAndCount | pkg/license/cloudwatch_registry.go:104-291 | one call, with or without a client, is a call under the trimmed key, or "unlicensed" for a blank one: lease, slots and stored heartbeats of every other key are left alone; unless the put of some chunk of 20 was denied, the key's lease knows the trimmed form of every resource given that is not blank, no others where it has not run out, and those the query found where it is renewed, then for a whole lease; the count is the size of what it knows; and what the query was told is right although others store meanwhile and any page may fail |
| CloudWatchRegistry.KeysShareExactly | pkg/license/cloudwatch_registry.go:111-114 | two keys that are not blank share a lease exactly if their trimmed forms agree; blank keys share one with each other and with "unlicensed" |
| RegistryCalls.CallIsARun | pkg/license/cloudwatch_registry.go:104-291 | one container's call, put by put and with any steps of other containers while its query runs, is a run of the many-container system that ends in the specified cache and count |
| RegistryCalls.RegisterAndCountIsARun | pkg/license/cloudwatch_registry.go:104-291 | what RegisterAndCount promises for a service that does not lie, failing pages included, makes its call such a run |
| RegistryModel.HbKeyInjective | pkg/license/cloudwatch_registry.go:170 | two key and resource pairs share a heartbeat slot only if equal, for keys without NUL |
| RegistryModel.HbKeysCollide | pkg/license/cloudwatch_registry.go:170 | every slot of a key with a NUL is also the slot of another pair, whose key is what stands before the first NUL |
| RegistryModel.SlotIsOwnExactly | pkg/license/cloudwatch_registry.go:170 | among keys without NUL a pair has its slot to itself exactly if its own key holds none |
| RegistryModel.EvaluateCounts | pkg/license/cloudwatch_registry.go:228-291 | on every path the count returned and remembered is the size of the known set, which includes the inputs |
| RegistryModel.OtherKeysUntouched | pkg/license/cloudwatch_registry.go:164-291 | a call under one key leaves every other key's lease, heartbeat slots and sliding-window count alone |
| RegistryQuery.QueryIdsDiffer | pkg/license/cloudwatch_registry.go:351-370 | generated query ids never collide |
| RegistryQuery.BuildQueries | pkg/license/cloudwatch_registry.go:347-371 | one query per candidate, ids and resources matched one to one |
| RegistryQuery.ListCandidates | pkg/license/cloudwatch_registry.go:299-332 | if all pages arrive, a resource is a candidate exactly if some metric on some page has a dimension named ResourceARN with that value, not empty; otherwise it fails with the first page that failed |
| RegistryQuery.ReadChunk | pkg/license/cloudwatch_registry.go:382-421 | if all pages arrive and no value is negative, a resource is active exactly if some page reports a positive value under an id that stands for it; otherwise it fails with the first page that failed |
| RegistryQuery.ChunkIsRight | pkg/license/cloudwatch_registry.go:375-422 | a truly answered chunk yields all of its resources in the window when the query started and none not there when it ended |
| RegistryQuery.CountedAnswersAreTrue | pkg/license/cloudwatch_registry.go:399-421 | a service that counts heartbeats answers truly: however it spreads results over pages, it is enough that the samples under each id add up to no fewer than the window held at the start and no more than at the end |
| RegistryQuery.SampledIffActive | pkg/license/cloudwatch_registry.go:403-413 | a positive sample count is the same as a heartbeat in the window |
| RegistryQuery.FetchActive | pkg/license/cloudwatch_registry.go:293-425 | for any number of resources, chunks of 500 and any page splits: if the pages name every resource to be found and show a sample for each asked about that was there all along and for none not there at the end, a fetched set lies between the window's resources at the start and at the end of the query; a failure is that of the first failing page; and with no failing page there is a set |
| RegistrySystem.StepKeepsInv | pkg/license/cloudwatch_registry.go:104-291 | every put, failure, look at a lease, and start or end of a query of any container keeps the heartbeat, lease and log bookkeeping |
| RegistrySystem.LeasesAreFresh | pkg/license/cloudwatch_registry.go:228-291 | in every run, with calls of different containers overlapping anywhere and all their times arbitrary: a valid lease's known set is the window at its query plus the container's inputs since; counted resources were seen after now - window - lease; what is missed lies before the window, was stored after the query started, or is stamped later than the refresh |
| RegistrySystem.RegisteredIsStored | pkg/license/cloudwatch_registry.go:147-226 | in every run, once a call at t has all its puts done, each of its resources has a stored heartbeat after t - 60 s and up to t, or up to the latest time its container has published at |
| RegistrySystem.ForwardIsExact | pkg/license/cloudwatch_registry.go:147-226 | as long as no container's time runs backwards, that is (t - 60 s, t] |
| RegistryCalls.SeenWithinMinuteExactly | pkg/license/cloudwatch_registry.go:164-226 | a call at t whose puts succeed leaves a resource with a heartbeat in (t - 60 s, t] except exactly if its container remembers a later one than t and no other lies there |
| RegistrySystem.RegisteredIsSeenEverywhere | pkg/license/cloudwatch_registry.go:147-226 | whatever else overlaps, every container whose query starts after those puts and whose time is at most t + window - 60 s, and not before the latest time published at, counts the resource |
| RegistrySystem.CountIsKnownSet | pkg/license/cloudwatch_registry.go:151-161 | in every run each finished call returned the size of the known set it left, its own resources among it, or was denied and returned 0 |
| RegistrySystem.HeartbeatsAreSpaced | pkg/license/cloudwatch_registry.go:164-226 | in every run, even if times run backwards, each remembered heartbeat is in the store, and one container's heartbeats for one pair are at least 60 s apart |
| Quota.Limit | pkg/license/quota.go:38-52 | an environment value is the limit where it is positive and not above the ceiling, which is the limit otherwise |
| Quota.QuotaTracker.constructor | pkg/license/quota.go:38-52 | ceilings of a new tracker are positive and at most 10,000 and 25,000 |
| Quota.QuotaTracker.RecordAndCheckContainerQuota | pkg/license/quota.go:195-202 | every batch is added to the total, which is compared after the addition; nothing else changes |
| Quota.QuotaTracker.CheckThroughputQuota | pkg/license/quota.go:105-132 | reports a breach exactly if a ceiling exists and a flag, reported gigabytes or bytes, or the bytes counted here exceed it, or the latter a container limit |
| Quota.QuotaTracker.ShouldEmitFairUseWarningAt | pkg/license/quota.go:137-149 | the uncontended limiter emits exactly when 3600 whole seconds have passed or none was emitted |
| FairUseLimiter.WarningsAreSpaced | pkg/license/quota.go:137-149 | for any threads interleaving load and compare-and-swap, with unordered clocks that never read 0, warnings i and j are at least 3600 (j - i) s apart |
| FairUseLimiter.LimiterHoldsExactly | pkg/license/quota.go:137-149 | over all interleavings of any threads and all readings the callers' clocks can give, consecutive warnings are 3600 s apart exactly if no clock can read 0 |
| FairUseLimiter.ZeroClockRepeats | pkg/license/quota.go:141-144 | with a clock reading 0 one of any number of threads warns twice at once |
| FairUseLimiter.UndisturbedIsWarned | pkg/license/quota.go:137-149 | undisturbed, load and compare-and-swap do what the uncontended limiter does |
| LicenseModel.CommercialMessage | pkg/license/model.go:810-817 | every message opening with the shouted prefix is classified deterministic |
| LicenseModel.VerificationMessage | pkg/license/model.go:810-817 | so is a failed verification, whatever its cause |
| LicenseModel.LastingExactly | pkg/license/model.go:789-818 | an error is classified deterministic exactly if it wraps a sentinel other than the three about the revocation list itself, or its message holds one of seven phrases |
| LicenseModel.LimitOf | pkg/license/model.go:571-582 | the structured limit wins if positive, and a limit is in force exactly if either source is positive |
| LicenseModel.LimitsMean | pkg/license/model.go:571-582 | which field and which raw name each limit is read from |
| LicenseModel.KeyIsBlankExactly | pkg/license/model.go:678-721 | an entitlement key is blank exactly for a licence without metadata scope whose id is only spaces |
| LicenseModel.SubscriptionsExactly | pkg/license/model.go:688-690 | two licences with subscriptions share a key exactly if they name the same one |
| LicenseModel.ProjectIdsExactly | pkg/license/model.go:691-702 | two licences of one organisation share a key exactly if their project_ids agree, or, where neither has one, their projects |
| LicenseModel.UnscopedExactly | pkg/license/model.go:704-709 | two licences without scope share a key exactly if their ids agree, or, where neither has one, their organisations |
| LicenseModel.LicencesTravel | pkg/license/model.go:678-709 | the key of a licence that names anything does not depend on environment or project |
| LicenseModel.ProjectNameStandsIn | pkg/license/model.go:679-684 | without a licence PROJECT_NAME replaces a blank project, and where it is blank too the key names none |
| LicenseModel.FreeAndUnlicensedApart | pkg/license/model.go:711-720 | a free run and one that would need a licence never share a key |
| LicenseModel.ProjectsAreIsolated | pkg/license/model.go:691-702 | two projects of one organisation never share a key |
| LicenseModel.OrganisationsCollideExactly | pkg/license/model.go:691-702 | two organisations have scoped projects that share a key exactly if one is missing or is the other, a slash, and a rest not opening with a space |
| LicenseModel.UnlicensedAreIsolated | pkg/license/model.go:711-720 | two unlicensed projects of one environment never share a key |
| LicenseModel.FreeKeysApart | pkg/license/model.go:711-716 | for non-production environments without a slash, free keys agree exactly if environment and project do |
| LicenseModel.FreeKeysCollideExactly | pkg/license/model.go:711-716 | two different non-production environments have projects that share a free key exactly if one environment is the other, a slash, and a rest not opening with a space |
| LicenseModel.NestedCollides | pkg/license/model.go:711-716 | then every project of the inner environment shares its key with a project of the outer one |
| Enforcer.ResourceTracker.Track | pkg/license/enforcer.go:111-134 | adds a trimmed non-blank id, returns the new count and whether it was new |
| Enforcer.DetectProductionIndicators | pkg/license/enforcer.go:194-250 | finds an indicator exactly if a bucket, the function name, the ARN, the project or a resource holds a delimited production keyword |
| Enforcer.EnforceFree | pkg/license/enforcer.go:514-606 | the free tier with its quota, tracker and registry steps computes the specified outcome and tracker state |
| Enforcer.CheckScope | pkg/license/enforcer.go:685-779 | the loops over accounts, features and resources stop at the first offender of the first failing check |
| Enforcer.CheckQuotas | pkg/license/enforcer.go:828-890 | registry, resource quota and throughput in this order; only the warning time of the quota tracker may change |
| Enforcer.EnforceCommercial | pkg/license/enforcer.go:610-890 | token, verification and licence checks compute the specified outcome and tracker state |
| Enforcer.Enforce | pkg/license/enforcer.go:410-891 | status, error and both trackers after the call are those of the decision function, for nil and non-nil trackers |
| Enforcer.PreflightEnforce | pkg/license/enforcer.go:896-904 | the same decision with accounts, resources, features, count and registry removed |
| EnforcerTheorems.ModeContract | pkg/license/enforcer.go:410-891 | on all paths: no error outside strict mode, and no error in strict mode means a valid status |
| EnforcerTheorems.FirstFailureSpeaks | pkg/license/enforcer.go:685-863 | in either mode the reason is that of the first failing check in the order caller, source accounts, features, resources, project, registry, resource count; an error comes with it exactly in strict mode; outside it the free grant replaces account and project reasons where it can step in |
| EnforcerModel.EvalTime | pkg/license/enforcer.go:411-428 | the evaluation time is never more than 15 minutes from AWS time |
| EnforcerMeaning.ReadsExactly | pkg/license/enforcer.go:410-483 | time, environment, project, claim to free use, production names, mode, token and revocation list as one relation over the options and the environment: every run reads one set of them, and it is the one the decision works with |
| EnforcerMeaning.LooksProdExactly | pkg/license/enforcer.go:176-190 | a name looks like production exactly if, trimmed, it is some text, one of the four words in any case, and some text, with a delimiter or nothing on either side of the word |
| EnforcerMeaning.JoinSplits | pkg/license/enforcer.go:454-457 | bucket names are joined in order with a separator wherever two meet |
| EnforcerMeaning.ErrsExactly | pkg/license/enforcer.go:410-891 | exactly when there is an error, over all paths and in terms of what the run reads: in strict mode, not converted, and without a token for want of a claim to free use, for a production name, a registry that fails for good, or too many records or resources; with one for a refused token, a foreign account, feature, resource or project, such a registry, or too many resources |
| EnforcerMeaning.UnsaidModeProtects | pkg/license/enforcer.go:473-483 | with no mode given, or "auto", a run without a token is refused exactly if it has no claim to free use or shows a production name, and a run that could be free never is |
| EnforcerMeaning.WarnNeverErrs | pkg/license/enforcer.go:473-483 | where option or setting say "warn", or any word but "strict" and "auto", there is never an error |
| EnforcerMeaning.StrictStopsExactly | pkg/license/enforcer.go:473-483 | where they say "strict", an error comes exactly from what speaks against the run |
| EnforcerMeaning.ConvertedIsUnrestricted | pkg/license/enforcer.go:430-440 | past the change date every run is valid and nothing is counted |
| EnforcerMeaning.ProductionNeedsLicence | pkg/license/enforcer.go:485-644 | without a token, a run with no claim to free use or with a production name: status, error and untouched trackers in both modes |
| EnforcerMeaning.FreeUseSpeaks | pkg/license/enforcer.go:513-606 | free use: batch and resources are counted in every case; status and error follow from the registry, the two record ceilings and the limit of 10 resources |
| EnforcerMeaning.RefusedTokenSpeaks | pkg/license/enforcer.go:646-683 | a refused token, per source of the revocation list: strict mode passes the verifier's status and error on, otherwise a run that could be free is |
| EnforcerMeaning.ObjectionSpeaks | pkg/license/enforcer.go:685-863 | a verified licence with an objection: its reason, wrapped error, fallback to free use, and whether the resources have been tracked by then |
| EnforcerMeaning.LicenceSpeaks | pkg/license/enforcer.go:828-890 | a verified licence without one: validity, grace, a lasting registry error, the throughput mark and the hourly warning |
| EnforcerTheorems.ValidErrorIsTheRegistrys | pkg/license/enforcer.go:832-842 | an error comes with a valid status exactly in strict mode, for a verified licence whose scope fits and a registry whose own error is a lasting one |
| EnforcerTheorems.FreeMeansNoIndicator | pkg/license/enforcer.go:485-606 | a run reported as free is eligible and shows no production indicator |
| EnforcerTheorems.FallbackExactly | pkg/license/enforcer.go:669-826 | outside strict mode a run with a token is let through free exactly if it could be free and verification, an account or the project failed first |
| EnforcerTheorems.ErrorsAreDeterministic | pkg/license/enforcer.go:501-860 | there is an error not classified deterministic exactly in strict mode, without a claim to free use, when the token fails to resolve for a reason not so classified; it is then that very error |
| EnforcerTheorems.NothingAtAllExactly | pkg/license/enforcer.go:657-682 | neither status nor error comes back exactly for a token no validator could be built for, outside strict mode and without a claim to free use |
| EnforcerTheorems.PreflightIsSound | pkg/license/enforcer.go:896-904 | an error before the download is an error after it, for every extension by logs, trackers and registry, unless the preflight's resource tracker already overflows |
| EnforcerTheorems.PreflightIsSoundExactly | pkg/license/enforcer.go:896-904 | a preflight error holds for all extensions exactly if it is not the case that, in strict mode and with nothing else against the run, the tracker holds more than 10 resources of a free run or more than a licence allows |
| EnforcerTheorems.PreflightErrsExactly | pkg/license/enforcer.go:896-904 | when a preflight errs, in terms of mode, indicators, token, caller account, project and tracker |
| EnforcerTheorems.ModeOnlyTightens | pkg/license/enforcer.go:466-483 | what the logs add can move the mode from warn to strict and never back |
| EnforcerTheorems.OverflowRefusesTooMuch | pkg/license/enforcer.go:541-606 | if the tracker does overflow, free or licensed, the preflight errs on a run of which some extension passes |
| EnforcerTheorems.ThroughputNeverBlocks | pkg/license/enforcer.go:865-890 | runs that differ only in bytes, overage flags and signals agree in error, status, claims and record and resource accounts |
| EnforcerTheorems.AcceptedWithinCeilings | pkg/license/enforcer.go:514-597 | a batch let through free in strict mode is within both ceilings and fully accounted for |
| EnforcerTheorems.FreeUseIsCapped | pkg/license/enforcer.go:514-606 | over any sequence of calls, strict free use lets through at most the container ceiling, at most 25,000 whatever the environment sets, in batches of at most 10,000 |
| BatchMerge.ProcessMessage | cmd/lambda/main.go:313-376 | a message fails exactly if an object with a processor fails; otherwise it yields all entries, keys, buckets and features of its objects |
| BatchMerge.MessageFeatures | cmd/lambda/main.go:352-374 | a message exercises exactly the features of its objects that held logs, by processor, key suffix and enrichment |
| BatchMerge.MessageKeys | cmd/lambda/main.go:326-350 | its keys are those of the objects a processor took, in order, and its buckets those of all objects with bucket and key |
| BatchMerge.OrderDoesNotMatter | cmd/lambda/main.go:378-398 | merging in any order gathers the same multisets and sets |
| MergeRuns.StepKeepsInv | cmd/lambda/main.go:297-402 | what a goroutine read under the mutex is still true when it writes back, and what is shared is the merge of those done so far |
| MergeRuns.EveryRunIsSafe | cmd/lambda/main.go:297-402 | at most maxConcurrent goroutines at work and at most one in the critical section |
| MergeRuns.EveryRunGathersAll | cmd/lambda/main.go:297-402 | in every interleaving the handler ends up with what it would without goroutines, up to order |
| MergeRuns.EveryRunEnds | cmd/lambda/main.go:300-402 | with a permit, the wait ends after a bounded number of steps and never blocks |
| MergeRuns.NoPermitsNeverJoins | cmd/lambda/main.go:300-308 | with no permit and a message, the wait never ends |
| BatchHandler.CollectBuckets | cmd/lambda/main.go:221-237 | the preflight sees every bucket named in a message that parses |
| BatchHandler.Handle | cmd/lambda/main.go:204-531 | the answer to SQS, over preflight, licence gate, abort action and send, is the specified one |
| BatchHandler.OnlyCurableErrors | cmd/lambda/main.go:265-525 | redelivery of a batch is asked for over the licence exactly if the token may still come at one of the two checks, and otherwise only if the send failed |
| BatchHandler.WarnNeverInterferes | cmd/lambda/main.go:249-531 | outside strict mode the answer is what it would be without licence checks |
| LicenceGate.LicensedBatchStopsExactly | cmd/lambda/main.go:249-515 | under a good licence a strict batch is stopped exactly if the caller's account or the project is not the licence's, an account, resource or feature found in its logs is beyond it, the registry fails for good, or it counts too many resources |
| LicenceGate.BeyondScopeStops | cmd/lambda/main.go:449-515 | whatever the preflight made of it, a strict batch under a licence that its logs go beyond is stopped |
| LicenceGate.FreeBatchStopsExactly | cmd/lambda/main.go:249-515 | without one a strict batch of a non-production environment is stopped exactly if a name known before or after the download looks like production, the registry fails for good, or there are more than 10 resources or too many entries for batch or container |
| LicenceGate.UnlicensedBatchStops | cmd/lambda/main.go:249-295 | with no mode given, or "strict", a batch with neither licence nor claim to free use never gets as far as the download |
| EndToEnd.FailedOnce | cmd/lambda/main.go:381-384 | with distinct ids, an id is among the failures once if its message failed and else not at all |
| EndToEnd.GateSees | cmd/lambda/main.go:378-470 | in every interleaving the licence gate sees exactly the features, buckets and keys of the messages that hit no error |
| EndToEnd.ReportedHowOften | cmd/lambda/main.go:265-531 | how often each message is reported: once if it failed and the licence did not abort; never after a discard; once, or twice if it had failed before a late abort, after a dead-letter abort |
| EndToEnd.NilMeansAllSent | pkg/sender/otlp_client.go:118-231 | a nil return of SendLogs means every input record is in exactly one 2xx reply under its own resource, and totalSent is the number of entries |
| EndToEnd.AcknowledgedIsDelivered | cmd/lambda/main.go:297-530 | no error and no licence abort: the ids reported are those of the failed messages, and the accepted records are exactly those of all others, for all interleavings of goroutines and sender |
| EndToEnd.EveryLineIsDelivered | cmd/lambda/main.go:297-530 | the same down to the lines: each record is accepted, under its own resource, exactly as often as a line that is not skipped parses to it, in an object with a processor, of a message that hit no error |
| EndToEnd.BucketsSeen | cmd/lambda/main.go:449-462 | the second licence check sees no bucket the preflight did not, and the same ones for a clean batch |
| EndToEnd.PreflightTurnsNoneAway | cmd/lambda/main.go:249-257 | the preflight never turns away a clean batch that the full check would let through, although the clock is read twice, as long as what the preflight read still holds |

## Left out

- S3 download, gzip, line scanning, JSON and parquet decoding: a reader delivers an arbitrary list of items and then stops, with or without an error. A parquet read into an empty buffer is not modelled.
- HTTP transport, headers, JSON encoding of payloads and message texts beyond their fixed openings. A batch carries its records and resource attributes; scope name and version are constants.
- Records accepted by a server whose reply is lost: only 2xx replies that arrive are counted as accepted.
- Token, revocation-list and release signatures, the licence library and the Apache conversion date: oracles in `EnforcerModel.World`. All that is relied on is that a refused token is reported as invalid, revoked or expired (`verifier.go:463-474`).
- CloudWatch eventual consistency and timeouts: a put that fails stores nothing, a stored heartbeat is visible to every query that starts later, the requested period is ignored, and the end of the query window is taken as closed, as the comment at `cloudwatch_registry.go:339` has it.
- Concurrent calls inside one container's registry: the handler makes one per invocation, so calls of a container are serial.
- A nil registry receiver: `RegisterAndCount` then returns the number of distinct inputs.
- Extraction of accounts, resources and the cross-account feature from entries and keys by regular expressions: a parameter of the handler (`sources`).
- Metrics, logs, EMF payloads, region resolution, environment lookup and the init phase.
- Integer widths: record and byte counters and the usage thresholds are unbounded; the 64-bit wrap of the retry backoff is modelled. A base other than 1 whose product leaves the 64-bit range follows the wrap of an exact integer product.
- RetryLoop.SendWithRetry: Retry-After is an optional integer, since parsing the header text is library code.
- Batching.PrepareBatches: the source cuts batches while it dispatches them; since batches are a function of the groups and their order, they are prepared first. `maxBatchSize` 0 never ends in the source and is excluded.
- `MAX_CONCURRENT` below 0: making the semaphore channel then panics in the handler and in SendLogs; the model takes it as a natural number.
- Unicode: trimming and case folding are modelled on ASCII.
- Quota.QuotaTracker.ShouldEmitFairUseWarningAt: states the uncontended case; module FairUseLimiter has the races.
