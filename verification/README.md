# SN360-ES: verified models

Dafny models of the parts of SN360-ES whose correctness is decided by code rather
than by wiring, with proofs about them. `dafny verify dfyconfig.toml` checks
everything.

- **Tenant linter** (`QualifierForest`, `TenantLint`). The union-find that spreads
  tenant scope through `a.tenant_id = b.tenant_id` joins, given a conjunctive-query
  meaning over databases: a reference is scoped exactly when no database can make the
  statement read a foreign row through it. The report built on top is exact unless a
  scoped alias is spelled like the table of an unscoped reference; that blind spot is
  shown with a concrete statement and delimited by an if-and-only-if, for the diagnostics
  of the whole scan as well.
- **Consumer lifecycle and result stream** (`ConsumerLifecycle`, `ResultStream`).
  Start-up and shutdown under any wiring and any pattern of refused subscriptions, and
  an interest-retention stream that keeps a result only for the durables bound when it
  is published. No result is lost for a wired durable.
- **Webhook dead-letter retrier** (`WebhookRetrier`, `Decimal`). Whole runs of one
  envelope against an adversarial repository, endpoint, broker and crash pattern.
- **Config cache, config store, TTL stores** (`ScoringCache`, `ConfigStore`,
  `TtlStores`, `ScoreEngine`, `TuningRoundTrip`). Interleavings of loads, writes,
  invalidations, sweeps and claims, and the round trip from a tuning write to the evaluator.
- **Evaluate and sighting protocol** (`EvaluateProtocol`, `DedupKey`). Ordering of the
  two publishes under redelivery, with the exact condition on message ids under which a
  sighting implies its result, the dedup id, read/write key agreement, and the
  incrementally maintained history row against a recomputation.
- **Lexers, parsers, loops** (`SqlNoise`, `MigrationCheck`, `PartitionBound`,
  `BatchedPrune`, `SecretStructure`, `TenantProvisioning`).
- **Shared helpers** (`Basics`, `Division`).

Code that updates things in place is a class or a method with loops, proved against a
function on values; the theorems are about those functions, and for each main operation
some of them say what it does without naming that function. Clocks, the network, the
database and the hashers are parameters, or choices of an adversary.

Where comments and code differ, the model follows the code:

- The union-find root is the root of the right-hand class of the last merge, not the
  lexicographically first member (`cmd/sn360-es-tenant-lint/main.go:375-378`).
- The table-name escape in the per-reference check also excuses a reference whose table
  name is the alias of something else (`cmd/sn360-es-tenant-lint/main.go:441-443`).
- With a single tenant-scoped reference, a `tenant_id` comparison on any other qualifier
  silences the report (`cmd/sn360-es-tenant-lint/main.go:752-754`).
- A sighting can be accepted without a result of its own, although the ordering contract
  speaks of a unit: a result is published under its message id alone, so the broker drops
  it without an error when another tenant's or recipient's result used the id within the
  dedup window, and the sighting, whose id covers tenant, sender and recipient, follows
  (`cmd/sn360-es/consumers_evaluate.go:99-135`).
- A failed sink lookup is negatively acknowledged, not dropped
  (`cmd/sn360-es/consumers_webhook_dlq.go:137-140`).
- The documented retry budget needs readable delivery metadata
  (`cmd/sn360-es/consumers_webhook_dlq.go:28-37`).
- The config store loses updates between concurrent first writers of a tenant, although
  it is described as safe within a tenant (`cmd/sn360-es/adapters.go:896-898`).
- A missing receive time does not weaken broker dedup, contrary to the comment, because
  the send time is not part of the dedup id (`cmd/sn360-es/signal_enricher.go:194-205`).

## Model

| member | source | states |
|---|---|---|
| QualifierForest.Forest.Find | cmd/sn360-es-tenant-lint/main.go:380-391 | path-compressing find terminates, returns the representative, changes no class, and adds a key only for an unknown qualifier |
| QualifierForest.Forest.Union | cmd/sn360-es-tenant-lint/main.go:392-398 | the classes afterwards are the merge of both ends' classes, and the parent map is still a forest |
| QualifierForest.Forest.Link | cmd/sn360-es-tenant-lint/main.go:397-397 | redirecting one root to another renames its class and changes one parent entry |
| QualifierForest.MergeIsExact | cmd/sn360-es-tenant-lint/main.go:392-401 | after a join two qualifiers are equivalent exactly when they were before or each was in one of the two joined classes |
| QualifierForest.TouchKeepsForest | cmd/sn360-es-tenant-lint/main.go:387-389 | adding an unknown qualifier as its own root keeps the forest |
| QualifierForest.CompressionKeepsForest | cmd/sn360-es-tenant-lint/main.go:382-386 | redirecting a qualifier to its representative keeps the forest, its classes and its depths |
| QualifierForest.LinkKeepsForest | cmd/sn360-es-tenant-lint/main.go:394-397 | hanging one root below another merges their classes and stays acyclic |
| QualifierForest.ForestHasNoCycle | cmd/sn360-es-tenant-lint/main.go:379-391 | no walk along parent links from a non-root ever returns to it, for any number of links |
| QualifierForest.ClimbReachesRepresentative | cmd/sn360-es-tenant-lint/main.go:381-391 | every walk of at least depth many links ends at the representative |
| QualifierForest.Forest.UnionAll | cmd/sn360-es-tenant-lint/main.go:399-401 | one union per join yields the classes of the join sequence |
| QualifierForest.Forest.RootsOf | cmd/sn360-es-tenant-lint/main.go:404-407 | the roots are the representatives of the direct bindings; unknown bindings become singleton classes and nothing else changes |
| QualifierForest.Forest.MembersUnder | cmd/sn360-es-tenant-lint/main.go:412-416 | the pass that compresses while iterating adds no key, changes no class and collects exactly the qualifiers under the given roots |
| QualifierForest.ScopedQualifiers | cmd/sn360-es-tenant-lint/main.go:369-418 | the result is the direct bindings plus every qualifier in the class of one |
| QualifierForest.JoinsShareAClass | cmd/sn360-es-tenant-lint/main.go:399-401 | both ends of every join end up in one class |
| QualifierForest.ClassesAreEntailed | cmd/sn360-es-tenant-lint/main.go:356-363 | under every assignment satisfying the joins, a qualifier and its representative have one tenant |
| QualifierForest.ScopedIsExact | cmd/sn360-es-tenant-lint/main.go:353-418 | with an allowed and a forbidden tenant, a qualifier is scoped if and only if every assignment satisfying all bindings and joins gives it an allowed tenant |
| QualifierForest.ScopedIgnoresJoinOrder | cmd/sn360-es-tenant-lint/main.go:399-401 | order, repetition and orientation of the join conditions do not change the result |
| TenantLint.MissingPerTablePredicates | cmd/sn360-es-tenant-lint/main.go:430-455 | exactly the tables with a reference scoped neither by alias nor by table name, and nothing below two scoped references |
| TenantLint.ScopedAliasIsIsolated | cmd/sn360-es-tenant-lint/main.go:353-368 | in every answer over every database, a scoped alias is bound to a row of an allowed tenant |
| TenantLint.UnscopedAliasLeaks | cmd/sn360-es-tenant-lint/main.go:364-368 | for an unscoped alias some database makes the statement return a foreign row through it |
| TenantLint.AliasScopeIsExact | cmd/sn360-es-tenant-lint/main.go:353-368 | in a well-formed statement an alias is scoped if and only if no database leaks through it |
| TenantLint.ReportedTablesLeak | cmd/sn360-es-tenant-lint/main.go:430-455 | every reported table leaks in some database |
| TenantLint.LeakingTableIsReported | cmd/sn360-es-tenant-lint/main.go:436-445 | with two scoped references and no shadowing, every leaking table is reported |
| TenantLint.ShadowedTableIsUnreported | cmd/sn360-es-tenant-lint/main.go:441-443 | an unscoped reference whose table name is scoped leaks and its table is not reported |
| TenantLint.ReportIsExactIffShadowFree | cmd/sn360-es-tenant-lint/main.go:436-445 | with two or more scoped references, reported tables and leaking tables coincide if and only if no unscoped reference is excused by a scoped alias spelled like its table |
| TenantLint.PlainAliasesAreShadowFree | cmd/sn360-es-tenant-lint/main.go:441-443 | never spelling an alias like another reference's table is enough for exactness |
| TenantLint.ShadowedTableIsMissed | cmd/sn360-es-tenant-lint/main.go:441-443 | a concrete well-formed statement that leaks while nothing is reported |
| TenantLint.ViolatesReferences | cmd/sn360-es-tenant-lint/main.go:745-755 | with missing predicates, the table's membership among them; otherwise the absence of any predicate |
| TenantLint.Violates | cmd/sn360-es-tenant-lint/main.go:710-871 | the decision for one table agrees with the set of tables reported for the statement |
| TenantLint.ScanEach | cmd/sn360-es-tenant-lint/main.go:656-667 | the loop emits one diagnostic for each reported table among those mentioned |
| TenantLint.ScanLiteral | cmd/sn360-es-tenant-lint/main.go:656-871 | kind by kind, which mentioned tables are named: for an INSERT with a column list or a scoped source, those it writes without a tenant, or else copies foreign rows out of; for an INSERT with neither, UPSERT, MERGE and statements with fewer than two scoped references, all if no comparison appears and none otherwise; with two or more, the leaking ones if and only if nothing is shadowed; otherwise none |
| TenantLint.InsertVerdictIsExact | cmd/sn360-es-tenant-lint/main.go:792-862 | a mentioned table is reported for an INSERT if and only if it is a scoped target whose rows get no tenant, or, when no target is, a scoped source whose foreign rows can be copied |
| TenantLint.ScanNamesMissingTables | cmd/sn360-es-tenant-lint/main.go:733-791 | for a SELECT, WITH, UPDATE or DELETE with missing predicates, all mentioned, the scan names exactly the missing tables, once each |
| TenantLint.InsertReportsOnce | cmd/sn360-es-tenant-lint/main.go:792-862 | an INSERT with a column list or a scoped source yields at most one diagnostic, on the target or on the unfiltered source |
| TenantLint.ScanIsExactIffShadowFree | cmd/sn360-es-tenant-lint/main.go:656-791 | for a statement whose references are checked, with two or more scoped references, all mentioned, the diagnostics of the whole scan are exactly the leaking tables if and only if no table name is shadowed |
| TenantLint.SingleReferenceIsExactIff | cmd/sn360-es-tenant-lint/main.go:715-755 | with one scoped reference, the verdict on its table is right if and only if no comparison appears, or one is bare, or the reference itself is scoped |
| TenantLint.ForeignPredicateSilences | cmd/sn360-es-tenant-lint/main.go:752-754 | a concrete statement that leaks its one scoped table and is passed |
| ConsumerLifecycle.Application.Subscribe | cmd/sn360-es/consumers.go:110-123 | a subscription is attempted exactly when wired; success is tracked and counted, refusal is returned |
| ConsumerLifecycle.Application.AttachResultConsumers | cmd/sn360-es/consumers.go:97-184 | result errors are empty exactly when no wired result durable is refused, and then none is attached exactly when none is wired |
| ConsumerLifecycle.Application.AttachWorkConsumers | cmd/sn360-es/consumers.go:244-417 | the eleven later subscriptions in order; errors are empty exactly when no wired critical one is refused |
| ConsumerLifecycle.Application.StartConsumers | cmd/sn360-es/consumers.go:81-498 | by the dependencies present: each of the 17 durables is attached, once, exactly when its dependency is there, it is not refused and the checkpoints before it pass; success exactly when both pass or there is no bus; orchestrator and DLQ processor start only then |
| ConsumerLifecycle.StartAttachesAsWired | cmd/sn360-es/consumers.go:81-498 | the same of the start journal, for every wiring and refusal pattern, successful or not |
| ConsumerLifecycle.FirstCheckpointByFields | cmd/sn360-es/consumers.go:215-236 | the first checkpoint by the dependency fields: no present result durable refused, and a producer has one |
| ConsumerLifecycle.SecondCheckpointByFields | cmd/sn360-es/consumers.go:428-431 | the second checkpoint by the dependency fields: none of the six other critical subscriptions refused |
| ConsumerLifecycle.Application.StopConsumers | cmd/sn360-es/consumers.go:502-526 | DLQ processor, then orchestrator, then every tracked subscription newest first; nothing stays open |
| ConsumerLifecycle.Application.CloseReverse | cmd/sn360-es/consumers.go:521-525 | the closing loop closes newest first |
| ResultStream.ResultPhaseBinds | cmd/sn360-es/consumers.go:97-184 | after the result phase every wired, unrefused result durable is bound and nothing produces |
| ResultStream.StartIsTidy | cmd/sn360-es/consumers.go:81-498 | for every wiring and refusal pattern, at every point of start-up a producer runs only with every wired result durable, and at least one, bound; subscriptions are tracked in start order |
| ResultStream.RefusalStartsNoProducer | cmd/sn360-es/consumers.go:186-236 | when either checkpoint trips, nothing produces |
| ResultStream.SuccessStartsProducers | cmd/sn360-es/consumers.go:238-478 | a successful start leaves the evaluator, or the orchestrator when wired, running |
| ResultStream.CloseAllIsSafe | cmd/sn360-es/consumers.go:517-525 | once the orchestrator is stopped, reverse closing is safe at every point and leaves nothing bound or producing |
| ResultStream.CloseAllAt | cmd/sn360-es/consumers.go:521-525 | closing appends exactly one action per subscription, in reverse order |
| ResultStream.StopClosesEvaluatorFirst | cmd/sn360-es/consumers.go:517-525 | during shutdown the evaluator's close precedes the close of every result subscription |
| ResultStream.LifecycleIsSafe | cmd/sn360-es/consumers.go:35-80 | start-up followed by shutdown is safe at every point |
| ResultStream.StopUndoesStart | cmd/sn360-es/consumers.go:502-526 | shutdown after any start leaves nothing bound, tracked or producing, and stops a started DLQ processor first |
| ResultStream.StepHolds | cmd/sn360-es/consumers.go:54-80 | every lifecycle action, tick, publication, delivery or freeing keeps all accepted results held |
| ResultStream.StepAccounts | pkg/events/nats/streams.go:160-178 | every step keeps each publication, accepted or dropped as a duplicate, accounted for by an accepted result of its message id |
| ResultStream.NoResultIsLost | cmd/sn360-es/consumers.go:54-80 | for every dedup window and in every run, each publication has an accepted result of its message id, and each accepted result is pending and stored, acked, or out of its three deliveries for every wired result durable |
| WebhookRetrier.Retrier.HandleWebhookDLQ | cmd/sn360-es/consumers_webhook_dlq.go:160-308 | the ordered effects (POST, audit, ack, nak) of one delivery, for every branch |
| WebhookRetrier.Retrier.AppendDLQAudit | cmd/sn360-es/consumers_webhook_dlq.go:353-382 | one audit whose key is built from sink, event and attempt and whose reason is capped |
| WebhookRetrier.PostsOfDelivery | cmd/sn360-es/consumers_webhook_dlq.go:212-259 | a delivery posts at most once, numbered one above its count (1 when unreadable), and never at the limit |
| WebhookRetrier.PostsExactlyWhen | cmd/sn360-es/consumers_webhook_dlq.go:180-259 | a delivery posts if and only if it reaches the handler parsed, the sink is found enabled, its count is below five and no crash comes first; never to a missing or disabled sink |
| WebhookRetrier.AuditsExactlyWhen | cmd/sn360-es/consumers_webhook_dlq.go:183-303 | an undisturbed delivery audits, and is then settled, if and only if the sink is missing or disabled, it is the fifth, or the endpoint fails permanently |
| WebhookRetrier.AuditReasons | cmd/sn360-es/consumers_webhook_dlq.go:186-287 | each of those audits carries the envelope's key and its own reason, capped at 1024 characters |
| WebhookRetrier.NaksExactlyWhen | cmd/sn360-es/consumers_webhook_dlq.go:191-306 | an undisturbed delivery is negatively acknowledged if and only if the lookup fails, the outcome is retriable or a wrapper fails, with exactly the scheduled delay; otherwise it is settled |
| WebhookRetrier.ReadableRunsStayWithinBudget | cmd/sn360-es/consumers_webhook_dlq.go:28-47 | with readable metadata after the first delivery, any mix of lookups, outcomes, crashes and lost acks makes at most four POSTs, strictly increasing within 2..5, none on delivery five |
| WebhookRetrier.BudgetIffReadable | cmd/sn360-es/consumers_webhook_dlq.go:170-174 | for a readability pattern over five deliveries, every run keeps the budget if and only if deliveries two to five are readable |
| WebhookRetrier.UnreadableRepeatsAttempt | cmd/sn360-es/consumers_webhook_dlq.go:170-174 | one unreadable later delivery makes the always-failing run break the budget |
| WebhookRetrier.AtMostOneAuditRow | cmd/sn360-es/consumers_webhook_dlq.go:363-375 | all audits of any run share the envelope's one key; a malformed message has none |
| WebhookRetrier.AuditKeyIsInjective | cmd/sn360-es/consumers_webhook_dlq.go:375-375 | for sink ids without the separator, equal keys mean equal sink, event and attempt |
| WebhookRetrier.UndisturbedRunsEndWell | cmd/sn360-es/consumers_webhook_dlq.go:160-308 | without crashes, lost acks or unreadable metadata, a finished run ends in success, an issued audit, a dropped or schema-routed message, or a lookup or wrapper failure on delivery five |
| WebhookRetrier.WaitIsScheduled | cmd/sn360-es/consumers_webhook_dlq.go:384-397 | each gap of an undisturbed run is bounded by the schedule |
| WebhookRetrier.TotalWaitIsBounded | cmd/sn360-es/consumers_webhook_dlq.go:49-69 | an undisturbed run waits at most 336 s when every delivery reaches the handler, 480 s when the wrappers may fail |
| Decimal.RenderRoundTrips | cmd/sn360-es/consumers_webhook_dlq.go:375-375 | reading back a decimally printed number returns it |
| ScoringCache.TenantScoringConfigAdapter.Lookup | cmd/sn360-es/adapters.go:747-758 | a hit is the live entry's config, anything else a miss |
| ScoringCache.TenantScoringConfigAdapter.LookupTier2Provider | cmd/sn360-es/adapters.go:734-745 | the same entry answers the provider lookup |
| ScoringCache.TenantScoringConfigAdapter.StoreFull | cmd/sn360-es/adapters.go:769-777 | only the tenant's entry changes, expiring one TTL from now |
| ScoringCache.TenantScoringConfigAdapter.Invalidate | cmd/sn360-es/adapters.go:837-851 | only the tenant's entry is dropped |
| ScoringCache.TenantScoringConfigAdapter.SweepExpired | cmd/sn360-es/adapters.go:784-798 | exactly the expired entries go, and their number is returned |
| ScoringCache.TenantScoringConfigAdapter.LoadTenant | cmd/sn360-es/adapters.go:647-728 | empty tenant, failed read, and otherwise the refreshed entry: the live one, or the derivation of the row read expiring one TTL after the store |
| ScoringCache.DerivedReadsBack | cmd/sn360-es/adapters.go:680-706 | each derived field reads back its own column: weights times hundred, pass and flag, provider; a missing row overrides nothing |
| ScoringCache.StoredIsAnsweredForOneTtl | cmd/sn360-es/adapters.go:734-777 | what is stored is answered up to one TTL later and no longer, and other tenants are unaffected |
| TuningRoundTrip.StoredWeightsArrive | cmd/sn360-es/adapters.go:680-706 | loading a row whose weight columns are near some weights gives each of them back, field by field, within half a percent |
| TuningRoundTrip.TuneThenLoad | cmd/sn360-es/adapters.go:978-1022 | after a successful weight update and its eviction, the next load hands out each weight within half a percent, and thresholds and provider as stored |
| ScoringCache.StepKeepsInv | cmd/sn360-es/adapters.go:647-851 | every interleaving step keeps the provenance of loads, entry and hits |
| ScoringCache.ReachableInv | cmd/sn360-es/adapters.go:647-851 | that provenance holds after every interleaving |
| ScoringCache.EveryHitIsExplained | cmd/sn360-es/adapters.go:647-851 | every hit derives from the row held when its load read, comes at most one TTL after its store, and predates an invalidated write only if its load read before the write and stored after the invalidate |
| ScoringCache.SoloLoadIsLoadTenant | cmd/sn360-es/adapters.go:647-777 | a lookup, read and store that meet no other step leave the entry LoadTenant leaves, whatever time passes between them |
| ScoringCache.StaleHitIsPossible | cmd/sn360-es/adapters.go:837-851 | that race does serve the old row |
| ConfigStore.ClampToPercent | cmd/sn360-es/adapters.go:1068-1079 | the nearest percentage, halves upwards, cut to 0..100 |
| ConfigStore.PercentRoundTrips | cmd/sn360-es/adapters.go:1068-1079 | a percentage read as a fraction is written back unchanged |
| ConfigStore.ScoreEngines.UpdateColumns | internal/repository/postgres.go:480-539 | done exactly when the row exists, the change passes the CHECKs and the database answers; only the owned columns of that row change |
| ConfigStore.ScoreEngines.Upsert | internal/repository/postgres.go:542-581 | writes the whole row exactly when it passes the CHECKs and the database answers |
| ConfigStore.PostgresConfigStore.Update | cmd/sn360-es/adapters.go:978-1066 | for every pattern of database failures: when it succeeds, the tenant's row afterwards, all other rows untouched, and a cache eviction on success only |
| ConfigStore.PostgresConfigStore.UpdateWeights | cmd/sn360-es/adapters.go:978-1022 | succeeds exactly when the database calls it needs do; then each weight column holds the nearest percentage of its own field, an existing row's other columns are untouched, a new row's take the schema defaults, and other tenants are untouched; otherwise nothing changes |
| ConfigStore.PostgresConfigStore.UpdateThresholds | cmd/sn360-es/adapters.go:1024-1066 | stored if and only if the banner thresholds descend strictly, pass is below flag and the database calls it needs succeed; an existing row's other columns are untouched, a new row's take the schema defaults |
| ConfigStore.SoloCallIsUpdate | cmd/sn360-es/adapters.go:978-1066 | a call whose steps meet no other does to the row what Update does, under every pattern of failures, and leaves nothing in flight |
| ConfigStore.SteadyStateLosesNothing | cmd/sn360-es/adapters.go:896-922 | with the row present and no seeding call in flight, every interleaving keeps the last committed weights, the last committed thresholds and all other columns |
| ConfigStore.FirstWritersLoseWeights | cmd/sn360-es/adapters.go:1003-1021 | two concurrent first writers can lose the weights of the first |
| ConfigStore.NoLostUpdateIffRowExists | cmd/sn360-es/adapters.go:896-922 | starting with nothing in flight, no interleaving loses an update if and only if the row exists |
| TtlStores.MemoryLabelCache.Get | cmd/sn360-es/adapters.go:73-85 | the visible value or the empty string; only an expired entry of that key is evicted |
| TtlStores.MemoryLabelCache.Set | cmd/sn360-es/adapters.go:87-96 | only that key changes; a non-positive TTL never expires |
| TtlStores.MemoryLabelCache.SweepExpired | cmd/sn360-es/adapters.go:100-114 | exactly the expired entries go, and their number is returned |
| TtlStores.MemoryQuarantineStore.Set | cmd/sn360-es/adapters.go:240-249 | only that key changes; a non-positive TTL never expires |
| TtlStores.MemoryQuarantineStore.Get | cmd/sn360-es/adapters.go:251-263 | the visible value; only an expired entry of that key is evicted |
| TtlStores.MemoryQuarantineStore.Del | cmd/sn360-es/adapters.go:265-272 | exactly the listed keys go |
| TtlStores.MemoryQuarantineStore.GetDel | cmd/sn360-es/adapters.go:279-292 | returns the visible value and removes the key |
| TtlStores.StoreHoldsLatest | cmd/sn360-es/adapters.go:73-114 | after every trace a key is held with its latest entry, or its latest entry has expired |
| TtlStores.AnswersIgnoreEviction | cmd/sn360-es/adapters.go:46-114 | after every trace the store answers like a map that never evicts and only checks expiry |
| TtlStores.VisibleForItsTtl | cmd/sn360-es/adapters.go:73-96 | a value is visible for exactly its TTL, for ever when that is not positive, and setting it disturbs no other key |
| TtlStores.RemovedIsHidden | cmd/sn360-es/adapters.go:265-292 | a claimed or deleted key is not visible |
| TtlStores.EvictionsAreInvisible | cmd/sn360-es/adapters.go:98-114 | deleting any one read or sweep from a trace changes no later answer |
| TtlStores.ClaimsAreExclusive | cmd/sn360-es/adapters.go:274-292 | between two successful claims of a key lies a Set of it, and the later claim returns the latest unexpired value |
| DedupKey.HashState.WriteLenPrefixed | internal/dto/comm_history.go:124-131 | appends the length-prefixed field to what is hashed |
| DedupKey.ComputeDedupId | internal/dto/comm_history.go:110-122 | the id is the tagged hash of the four prefixed fields |
| DedupKey.CompleteNeedsEachField | internal/dto/comm_history.go:82-96 | an update lacking any one of its five fields is incomplete, and the domain does not matter |
| DedupKey.FieldIsDecodable | internal/dto/comm_history.go:112-131 | a length-prefixed field followed by anything decodes uniquely |
| DedupKey.HashInputIsExact | internal/dto/comm_history.go:98-122 | the hashed bytes are equal if and only if tenant, both hashes and message id are |
| DedupKey.DedupIdIdentifiesSighting | internal/dto/comm_history.go:98-122 | unless the hash collides on the two streams, equal ids mean the same tenant, hashes and message, and conversely |
| EvaluateProtocol.Enrich | cmd/sn360-es/signal_enricher.go:100-176 | without a usable triple or on a failed read the producer's values stand; no row means first contact; a row gives its count, its category unless one was set, and its hour exactly when in 0..23; the current hour is that of the arrival time, or of the clock when there is none |
| EvaluateProtocol.KeyNeedsATriple | cmd/sn360-es/signal_enricher.go:115-129 | a key exists exactly when tenant, sender and recipient are nonblank and both hashes nonempty |
| EvaluateProtocol.KeysIdentifyTriples | cmd/sn360-es/signal_enricher.go:115-131 | unless the tenant's hash collides, two requests share a key exactly when they share the normalised triple |
| EvaluateProtocol.SightingCarries | cmd/sn360-es/signal_enricher.go:206-255 | exactly the keyed requests with a message id have a sighting, and what each of its fields is |
| EvaluateProtocol.WriteAndReadKeysAgree | cmd/sn360-es/signal_enricher.go:178-255 | the key a sighting writes is the key looked up for every request with the same normalised triple |
| EvaluateProtocol.RedeliveriesShareDedupId | cmd/sn360-es/signal_enricher.go:194-255 | redeliveries of one request share the dedup id even when the clock supplies the send time |
| EvaluateProtocol.RecordedSummarises | internal/repository/postgres.go:1120-1211 | recording one more sighting keeps counts, first and last seen, domain and domain hash equal to a recomputation |
| EvaluateProtocol.LatestIsGreatest | internal/repository/postgres.go:1123-1123 | the last-seen time of a recomputation is one of the send times and none is later |
| EvaluateProtocol.Pipeline.HandleEvaluateRequest | cmd/sn360-es/consumers_evaluate.go:46-137 | undecodable, unidentified and unencodable messages are dropped; redelivery is asked for exactly on evaluation or result-publish failure; otherwise exactly the result, unless a duplicate, and then the sighting, unless a duplicate, reach their streams |
| EvaluateProtocol.Pipeline.HandleCommHistoryUpdate | cmd/sn360-es/consumers_evaluate.go:157-194 | undecodable and incomplete messages are dropped, repository failures redelivered; any other raises the count of its own row by one and no other row changes |
| EvaluateProtocol.ResultFitsIff | internal/service/evaluate/comm_history.go:47-66 | a published result is one of a sighting, by message, tenant or pair, exactly when their requests share the message id and are alike |
| EvaluateProtocol.SightingImpliesResult | cmd/sn360-es/consumers_evaluate.go:99-135 | over clash-free requests, in every run with publish failures and redeliveries, each accepted sighting was preceded by an accepted result of its own message, tenant or pair |
| EvaluateProtocol.ResultsComeFirstIffClashFree | cmd/sn360-es/consumers_evaluate.go:99-135 | every run over a set of requests has that property if and only if no request with a sighting shares its message id with an identified request of another tenant (or pair) |
| EvaluateProtocol.SharedIdLosesResult | cmd/sn360-es/consumers_evaluate.go:99-135 | two such requests always have a run whose sighting has no result of its own |
| EvaluateProtocol.SmoothRunLosesResult | cmd/sn360-es/consumers_evaluate.go:99-135 | with nothing failing, two requests under one message id yield two accepted sightings and only the first one's result |
| EvaluateProtocol.TwoTenantsShareAnId | cmd/sn360-es/consumers_evaluate.go:99-135 | the concrete run: tenants A and B both send message m, and B's sighting has no result of B |
| EvaluateProtocol.MessagesNeverClash | cmd/sn360-es/consumers_evaluate.go:114-135 | by message id alone there is no clash, so every accepted sighting follows a result of its message id |
| EvaluateProtocol.OneSightingPerWindow | internal/dto/comm_history.go:98-109 | for every dedup window and in every run, two accepted sightings of one message are more than the window apart |
| EvaluateProtocol.RowsAreRecomputable | cmd/sn360-es/consumers_evaluate.go:139-194 | in every run, each history row equals the recomputation over the sightings recorded for its pair |
| EvaluateProtocol.FirstContactIsExact | cmd/sn360-es/signal_enricher.go:131-176 | absent repository errors, first contact is reported exactly when nothing was recorded for the pair, and otherwise the frequency is the number recorded |
| EvaluateProtocol.KnownPairIsNoFirstContact | cmd/sn360-es/signal_enricher.go:178-255 | absent repository errors, after a sighting is recorded no request with the same normalised triple is a first contact |
| SqlNoise.StripSQLNoise | cmd/sn360-es-migrate/check.go:153-220 | the flag loop computes the rendering of the token-level lexer: code kept, comments and literals blanked |
| SqlNoise.LexIsLossless | cmd/sn360-es-migrate/check.go:143-152 | the tokens partition the text |
| SqlNoise.RestIsStripped | cmd/sn360-es-migrate/check.go:160-219 | scanning by modes and rendering by tokens agree on every text |
| SqlNoise.CodeSurvives | cmd/sn360-es-migrate/check.go:143-152 | token by token: the output carries code unchanged at its position and blanks at the positions of comments and literals |
| SqlNoise.CodeIsKept | cmd/sn360-es-migrate/check.go:198-217 | a character that opens neither a literal nor a comment is kept |
| SqlNoise.LineCommentIsBlanked | cmd/sn360-es-migrate/check.go:163-204 | a line comment is blanked up to the next newline or the end, and stripping goes on from there |
| SqlNoise.BlockCommentIsBlanked | cmd/sn360-es-migrate/check.go:170-210 | a block comment is blanked up to its first end marker, without nesting, and stripping goes on from there |
| SqlNoise.LiteralIsBlanked | cmd/sn360-es-migrate/check.go:181-215 | a literal is blanked up to its closing quote, doubled quotes being content, and stripping goes on from there |
| SqlNoise.StrippingIsClean | cmd/sn360-es-migrate/check.go:143-152 | same length, each character kept or blanked, newlines in place, no quote and no comment opener left |
| SqlNoise.StrippingIsIdempotent | cmd/sn360-es-migrate/check.go:153-220 | stripping twice is stripping once |
| MigrationCheck.PrintThenParse | cmd/sn360-es-migrate/check.go:14-16 | every conventional name parses to its version, name and direction |
| MigrationCheck.ParseThenPrint | cmd/sn360-es-migrate/check.go:14-16 | only conventional names parse |
| MigrationCheck.PrintedName | cmd/sn360-es-migrate/check.go:14-16 | a conventional name is four decimal digits of the version, an underscore, the name and the direction's ending |
| MigrationCheck.SanityCheckSQL | cmd/sn360-es-migrate/check.go:121-141 | after trimming, accepts exactly readable, nonempty, balanced files ending in a semicolon |
| MigrationCheck.SaneIsExact | cmd/sn360-es-migrate/check.go:121-141 | whatever white space surrounds it, a text is sane exactly when it is nonempty, ends in a semicolon and has equally many occurrences of both keywords outside noise |
| MigrationCheck.CountIsOccurrences | cmd/sn360-es-migrate/check.go:132-133 | counting without overlap misses no occurrence of a word that does not repeat its first letter |
| MigrationCheck.KeywordsAreCounted | cmd/sn360-es-migrate/check.go:132-133 | both keywords are counted at every position they occur |
| MigrationCheck.CaseDoesNotMatter | cmd/sn360-es-migrate/check.go:130-136 | the verdict does not depend on the case of ASCII letters |
| MigrationCheck.WhiteSpaceDoesNotMatter | cmd/sn360-es-migrate/check.go:126-129 | nor on surrounding white space |
| MigrationCheck.CollectOne | cmd/sn360-es-migrate/check.go:40-75 | on good tables, one more entry is complained about exactly when it spoils the collection, and otherwise the tables hold it too |
| MigrationCheck.Collect | cmd/sn360-es-migrate/check.go:35-75 | no complaint exactly when names are well formed, no file repeats and each version has one name; the tables then hold exactly the files |
| MigrationCheck.CheckPair | cmd/sn360-es-migrate/check.go:92-106 | no complaint exactly when both directions are present and sane |
| MigrationCheck.CheckInOrder | cmd/sn360-es-migrate/check.go:87-107 | no complaint exactly when each sorted version is in its place with a good pair |
| MigrationCheck.CheckVersions | cmd/sn360-es-migrate/check.go:77-107 | no complaint exactly when versions are 1..n with n at least 1 and every pair is complete and sane |
| MigrationCheck.VerdictIsExact | cmd/sn360-es-migrate/check.go:77-107 | on a clean collection the second pass decides acceptance |
| MigrationCheck.CheckMigrations | cmd/sn360-es-migrate/check.go:21-114 | no problem if and only if the multiset of entries is acceptable, so the order of entries is irrelevant |
| PartitionBound.UnquoteSQLLiteral | cmd/sn360-es/wire_partitions.go:359-373 | one surrounding pair of quotes goes and doubled quotes become single |
| PartitionBound.UnquoteUndoesQuote | cmd/sn360-es/wire_partitions.go:355-373 | unquoting a literal quoted by doubling (PostgreSQL documentation, section 4.1.2.1) returns it |
| PartitionBound.IndexOf | cmd/sn360-es/wire_partitions.go:385-395 | the first occurrence, or a negative number when there is none |
| PartitionBound.SeparatorIsFoundIff | cmd/sn360-es/wire_partitions.go:302-308 | the first separator lies right after the lower text if and only if that text does not contain it |
| PartitionBound.InnerIsInRange | cmd/sn360-es/wire_partitions.go:299-302 | the inner slice is never inverted |
| PartitionBound.ParsePartitionBound | cmd/sn360-es/wire_partitions.go:292-330 | a printed bound whose lower text has no separator parses to the meaning of both texts; an expression is refused for its shape exactly when it is no printed bound |
| PartitionBound.ParseSides | cmd/sn360-es/wire_partitions.go:307-329 | the two sides parse to their meaning, failing only on a bad lower or upper timestamp |
| PartitionBound.QuotedBoundsMean | cmd/sn360-es/wire_partitions.go:307-329 | two quoted timestamps mean the two times they denote |
| PartitionBound.PlainIsUnquoted | cmd/sn360-es/wire_partitions.go:359-373 | text without quotes is unchanged by unquoting |
| PartitionBound.SentinelsAreUnbounded | cmd/sn360-es/wire_partitions.go:310-328 | MINVALUE leaves the lower side open and MAXVALUE the upper, each only its own |
| PartitionBound.BadTimesFail | cmd/sn360-es/wire_partitions.go:313-327 | a side that is neither its sentinel nor a timestamp is an error naming that side, the lower first |
| PartitionBound.ListPartitions | cmd/sn360-es/wire_partitions.go:127-173 | a partition is non-legacy exactly when its name is ordinary and its bound is finite on both sides, and then carries those times |
| BatchedPrune.Table.DeleteBatch | cmd/sn360-es/wire_infra.go:1414-1417 | deletes the smaller of the limit and the stale count, stale rows only |
| BatchedPrune.RunBatchedPrune | cmd/sn360-es/wire_infra.go:1370-1401 | terminates; without faults it drains: no stale row, fresh rows intact, exact total, floor(stale/batchSize) + 1 batches; cancelled or failed, the total is that of the completed batches |
| SecretStructure.LongestRun | internal/config/validate.go:524-540 | exactly the length of the longest segment of +1 steps |
| SecretStructure.HasPeriod | internal/config/validate.go:549-555 | true if and only if every character repeats the one at its index modulo the period |
| SecretStructure.RepeatsExactly | internal/config/validate.go:544-560 | true if and only if the string is a block of length at least two repeated at least twice |
| SecretStructure.IsLowEntropy | internal/config/validate.go:496-561 | a nonempty secret is weak exactly on low entropy, a climbing run of at least half its length, or a tiling |
| TenantProvisioning.HexReadsBack | cmd/sn360-es-loadgen/bootstrap.go:254-254 | the padded digits are lower-case hexadecimal and read back as the index |
| TenantProvisioning.TenantIdsAreDistinct | cmd/sn360-es-loadgen/bootstrap.go:236-255 | accepted ids are the prefix followed by twelve hexadecimal digits of the index (36 characters for the 24-character prefix) and pairwise distinct |
| TenantProvisioning.BuildStatement | cmd/sn360-es-loadgen/bootstrap.go:193-227 | row i uses placeholders 6i+1..6i+6, each named column of it takes the tenant's own value, and the parameter limit is kept |
| TenantProvisioning.BuildTenants | cmd/sn360-es-loadgen/bootstrap.go:173-185 | one tenant per index in order, refused as a whole exactly when the count exceeds 2^48 |
| TenantProvisioning.ProvisionTenants | cmd/sn360-es-loadgen/bootstrap.go:172-234 | batches are nonempty, hold at most 2000 rows, and on success concatenate to the tenant list; each statement inserts its batch; refused indexes insert nothing |

## Left out

- Regular expressions and Go syntax trees of the linter: the model starts from extracted references, bindings and joins.
- MissingPerTablePredicates: returns a set; the alphabetical order of the reported names is not modelled.
- ScanLiteral: takes the mentioned tables, without repetition, as input.
- ScanNamesMissingTables: takes it as given that word matching mentions every referenced table.
- ScopedIsExact: all direct bindings allow one set of tenants; bindings to different parameters are not distinguished.
- AliasScopeIsExact: assumes, as SQL does, that every qualifier in a condition is an alias of the statement.
- HandleWebhookDLQ: the body, the format and the re-signing of the POST are not modelled, only its attempt number.
- AuditKeyIsInjective: sink ids are UUIDs; ids containing the separator are excluded.
- NoResultIsLost: the stream's age limit is not modelled, and a closed subscription stops deliveries; a dropped duplicate counts by its message id.
- StopConsumers: a timed-out stop of the batch orchestrator, which the code logs and ignores, is not modelled.
- EveryHitIsExplained: follows one tenant; the class contracts show that an operation touches its own tenant only.
- ClampToPercent: over reals, so IEEE rounding is not modelled.
- Enrich: the primary recipient is given, and a stored label outside the known categories counts as unknown.
- SightingImpliesResult: takes the evaluator to keep the request's message id, as `internal/service/evaluate/evaluator.go:263-264` does; the batch path is not modelled.
- UpdateColumns: the two schema CHECKs are those of `migrations/0001_init.up.sql:129-134` and `migrations/0013_score_engine_tier1_thresholds.up.sql:29-31`; other database errors are arbitrary failures.
- Upsert: does not turn an empty Tier 2 provider into NULL.
- SingleReferenceIsExactIff: takes a bare predicate to bind the one scoped reference.
- RowsAreRecomputable: pruning of old rows and the periodic relationship worker are not modelled.
- SanityCheckSQL: trims and upper-cases ASCII only.
- CheckMigrations: an unreadable directory is not modelled.
- ListPartitions: the timestamp layouts are a parameter, so any parser fits; query errors are not modelled.
- IsLowEntropy: the Shannon test is a parameter.
- Evaluator, tier decider, batch orchestrator, dispatcher, partition worker, HTTP handlers, provider wiring, configuration loading, telemetry, cryptography: plumbing, thin wrappers or separate components.
