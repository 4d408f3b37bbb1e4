# A Dafny model of the hook event pipeline

The system is a three-stage event pipeline over Kafka. *Serve* accepts webhooks, limits and
deduplicates them and queues them for publication. *Relay* copies topics. *Smash* consumes
envelopes and delivers each to the destinations of the routes that match it. A contract file
configures the stages: it is validated, projected and checked once more by the smash runtime.

This project models that logic and proves properties of it over all inputs and all runs; serve runs
interleave any number of handlers at every lock they take. Kafka, HTTP, the adapters and the clock are inputs with arbitrary answers: a send may
be acknowledged, lost, or written without an acknowledgement; a commit may land late or never;
a process may crash between any two effects.

How the parts are stated:

- Code that changes state is a class with methods or a loop with invariants (`KafkaConsumer`,
  `RelayWorker`, `IdempotencyStore`, `SourceRateLimiter`, `AppState`, the contract validators, the
  sanitizer, the plugin interpreters, the retry loops). Each method is proved equal to a
  specification function, and the laws are proved about that function.
- Whole runs are state machines (`SmashRun`, `Relay`, `ServeRun`, `StoreLocks`) whose steps use the same
  specification functions as the classes.
- Independent reference definitions are the glob language (`Glob.InLanguage`), the flat delivery
  schedule (`Smash.Schedule`), the never-pruned history (`Idempotency.Expected`), the places of a
  JSON document (`Sanitize.At`) and declarative profile validity (`ProfileValidity.ProfileHolds`).

| file | subject |
|---|---|
| `Arithmetic`, `Text`, `Decimal`, `Json`, `Wrappers`, `Envelopes`, `Kafka` | bounded integers, strings, JSON values, envelopes, send outcomes |
| `Glob` | the wildcard matcher |
| `Smash`, `ScheduleLaws`, `SmashRun` | delivery of one message; the order of the schedule; whole consumer runs |
| `Relay`, `Retry` | the relay loop; the retry loops and their backoff |
| `ExpiringMap`, `Idempotency`, `LockedMap`, `StoreLocks`, `RateLimiter`, `Timestamps` | the admission state and the Linear timestamp window |
| `Sources`, `SourceLaws`, `Admission` | keys and event types per source; independence between sources |
| `Serve`, `HandlerLaws`, `ServeRun`, `ServeLaws`, `ServeReplay`, `ServeWitness` | the webhook handler and queue; what its stages accept and build; interleaved runs and their laws; replayed and retried deliveries with examples |
| `Plugins`, `Sanitize`, `PointerLaws` | the plugin interpreters; the payload sanitizer; JSON pointers |
| `Contract`, `ContractValidator`, `ContractLaws`, `ProfileValidity`, `IssueLaws` | contract validation and its laws |
| `Projection`, `ProjectionLaws`, `RuntimeConfig`, `TopicLaws`, `StartupLaws`, `RunningLaws`, `StartupWitness` | from contract to runtime, and what the layers guarantee together |

## Where the code differs from its documentation or from what one might expect

- docs/architecture.md says a commit waits until the required deliveries succeed. The consumer polls
  on after a message it did not commit, and the next commit is a watermark that covers it as well
  (`SmashRun.LaterCommitOvertakes`). So "below the committed position" means delivered, dead-lettered, discarded
  by policy, or failed with an error, and not "delivered" (`SmashRun.CommittedButNeverSettled`).
  `SmashRun.RunSettlesExactly` says for every run exactly when an offset is delivered, dead-lettered or discarded.
- Without a stored offset the consumers start at the end of the log; the run machines record the
  unfinished offsets passed over that way as `skipped`.
- The Linear window subtracts 64-bit numbers. In a build with wrap-around the timestamp 2^63
  seconds before the clock passes for any window (`Timestamps.OverflowingEpochPasses`), and larger
  distances count backwards (`Timestamps.WindowExact`).
- Handlers read the clock before they take the limiter's lock, so clocks can reach it out of order and a
  minute can let more than the limit through (`RateLimiter.OutOfOrderExceeds`);
  `RateLimiter.AdmitsExactlyTheLimit` gives the exact condition.
- The deduplication key is recorded before the job is prepared and queued, so a delivery answered 400
  or 503 after that point, or ignored as cooling down, shuts out its own retry (`ServeRun.FailedDeliveryBlocksRetry`, a run:
  `ServeWitness.RetryIsShutOutSomewhere`); `ServeLaws.AnsweredDuplicateExactly` says exactly when a request is
  turned away.
- A clock that steps back can make the store forget a key before its lifetime is over
  (`Idempotency.BackwardClockForgets`, exactly when: `Idempotency.ForgetsExactly`); it never rejects
  without reason (`Idempotency.RejectionsJustified`).
- A key with a dot makes the sanitizer report a path that leads elsewhere or nowhere
  (`Sanitize.DottedKeyLosesLeaf`); `Sanitize.ReportedPathLeadsBack` gives the exact condition for a
  path to lead back to its leaf.
- The contract schema does not know `token_env` for the websocket outputs, while the runtime demands
  it for every authentication mode but "none". A websocket output with bearer authentication, as in
  docs/adapters.md, therefore never starts from a contract (`RunningLaws.AuthenticatedWebsocketNeverStarts`, an
  example: `StartupWitness.BearerNeverStarts`). The retry
  policy shown there as a string must be a table for the projection to accept it.
- The validator looks at the last of several adapters with one id, the projection takes all of them;
  the runtime then refuses the repeated id.
- A contract whose policy allows no output never starts a runtime without outputs: with no adapters
  and no routes the runtime falls back to its legacy OpenClaw adapter (`RunningLaws.OutputsAlwaysExist`).
- Topics travel as one comma-separated variable, so a topic with a comma is subscribed to as several
  others (`TopicLaws.TopicsRoundTrip`).
- A failed relay send can still be written later, behind messages sent after it
  (`Relay.LateWriteReorders`); `Relay.RunOrdersExactly` gives the exact condition for the input order to be kept.
- Direct ingress falls back to the source's topic even when routes exist and none matches, unlike
  the webhook handler (`Serve.DirectTopic`, `Serve.PreparedTopic`).

## Model

| member | source | states |
|---|---|---|
| `Glob.WildcardMatches` | crates/hook-runtime/src/smash/consumer.rs:372-419 | the greedy scan answers true exactly when the trimmed pattern is non-empty and the value is in its declarative glob language |
| `Glob.Scan` | src/main.rs:1125-1172 | the segment loop with its prefix and suffix anchors decides exactly whether the segments occur in order without overlap |
| `Glob.LeftmostIsBest` | crates/hook-runtime/src/smash/consumer.rs:407-415 | the exchange argument: taking the leftmost occurrence of a segment loses no match and invents none |
| `Glob.LanguageIsFloating` | crates/hook-runtime/src/smash/consumer.rs:386-402 | the glob language of a pattern with stars is a fixed prefix followed by floating segments, the last one anchored unless a star ends the pattern |
| `Glob.LanguageIsParts` | crates/hook-runtime/src/smash/consumer.rs:386-390 | cutting the pattern at its stars keeps its language |
| `Smash.MatchesRoute` | crates/hook-runtime/src/smash/consumer.rs:356-370 | a route matches exactly when its topic pattern does and it has no event filters or one of them does |
| `Smash.KafkaConsumer.DeliverDestination` | crates/hook-runtime/src/smash/consumer.rs:266-282 | one attempt: it fails on an unknown adapter or a rejecting plugin without calling the adapter, otherwise the adapter sees the transformed envelope |
| `Smash.KafkaConsumer.HandleNoOutput` | crates/hook-runtime/src/smash/consumer.rs:284-315 | the no-output policy: error, discard and commit, or dead-letter and commit only if acknowledged |
| `Smash.KafkaConsumer.PublishFailed` | crates/hook-runtime/src/smash/dlq.rs:46-84 | the dead-letter record holds the given envelope and is written at most once |
| `Smash.KafkaConsumer.Matched` | crates/hook-runtime/src/smash/consumer.rs:177-181 | the matched routes, in configuration order |
| `Smash.KafkaConsumer.DeliverToRoutes` | crates/hook-runtime/src/smash/consumer.rs:172-264 | the nested loops with their counter and early return refine the flat schedule: same attempts, dead letters and verdict |
| `Smash.KafkaConsumer.ProcessMessage` | crates/hook-runtime/src/smash/consumer.rs:104-170 | a commit of the next offset is asked for exactly on a `Commit` verdict; undecodable messages fail without effects |
| `Smash.ScheduledExactly` | crates/hook-runtime/src/smash/consumer.rs:172-264 | the schedule holds exactly the destinations of the matching routes |
| `ScheduleLaws.ScheduleInOrder` | crates/hook-runtime/src/smash/consumer.rs:172-264 | the schedule lists the destinations of the matching routes one for one: routes in configuration order, within a route required before optional, each group in configuration order |
| `Smash.AttemptsFollowSchedule` | crates/hook-runtime/src/smash/consumer.rs:194-263 | the attempts are a prefix of the schedule, cut only just after a required failure |
| `Smash.VerdictFollowsAttempts` | crates/hook-runtime/src/smash/consumer.rs:194-263 | commit exactly when no required attempt failed; an acknowledged dead letter is exactly one record of the original envelope naming the failed adapter and route |
| `Smash.AttemptsSeeOriginal` | crates/hook-runtime/src/smash/consumer.rs:266-282 | every adapter call gets that adapter's plugins applied to the original envelope, never to another adapter's output |
| `Smash.OptionalAnswersIrrelevant` | crates/hook-runtime/src/smash/consumer.rs:233-248 | the verdict, the dead letters and the calls do not depend on what optional destinations answer |
| `SmashRun.StepKeepsInvariant` | crates/hook-runtime/src/smash/consumer.rs:87-170 | every step, crashes and late commits included, keeps every offset below the position, the commit requests and the commit accounted for |
| `SmashRun.CommittedIsAccounted` | crates/hook-runtime/src/smash/consumer.rs:87-170 | over every run each offset below the committed position was delivered to all required destinations, dead-lettered, discarded by policy, returned an error, or was passed over without ever being processed to an end |
| `SmashRun.ErrorFreeRunLosesNothing` | crates/hook-runtime/src/smash/consumer.rs:87-170 | an offset below the committed position that did not err and was not passed over was delivered, dead-lettered or discarded by policy |
| `SmashRun.ProcessFailsExactly` | crates/hook-runtime/src/smash/consumer.rs:104-170 | processing errs exactly on an undecodable message, an unavailable dead-letter topic where one is needed, a missing no-output policy, or a refused commit |
| `SmashRun.CommitsExactly` | crates/hook-runtime/src/smash/consumer.rs:104-170 | a commit is asked for and accepted if and only if every required destination has its adapter, passes its plugins and succeeds, or nothing is scheduled and the policy discards or the dead letter is acknowledged |
| `SmashRun.RunRequestsExactly` | crates/hook-runtime/src/smash/consumer.rs:87-170 | over every run an offset is committed exactly when the message before it is polled and that condition holds |
| `SmashRun.LetterNamesReason` | crates/hook-runtime/src/smash/consumer.rs:182-262 | a dead letter holds the original message and names the missing route, the missing destinations, or a required destination of the schedule |
| `SmashRun.CallSettlesExactly` | crates/hook-runtime/src/smash/consumer.rs:172-315 | one call, finished or cut short, settles its message exactly on a condition on the schedule, the first required failure and what the dead-letter topic took |
| `SmashRun.RunSettlesExactly` | crates/hook-runtime/src/smash/consumer.rs:87-170 | over every run, crashes included, an offset ends settled if and only if some step meets that condition |
| `SmashRun.LaterCommitOvertakes` | crates/hook-runtime/src/smash/consumer.rs:87-102 | from any state the next commit covers a message that asked for none, and that message ends settled if and only if it was before or its own call gets past all required slots, is discarded by policy or has its dead letter written |
| `SmashRun.CommittedButNeverSettled` | crates/hook-runtime/src/smash/consumer.rs:87-156 | a concrete run that commits past a message that was neither delivered nor dead-lettered nor discarded |
| `Relay.RelayWorker.PublishMessage` | tools/hook/src/commands/relay.rs:294-342 | sends until acknowledged or out of attempts, writes only verbatim copies, sleeps between sends only |
| `Relay.RelayWorker.ProcessMessage` | tools/hook/src/commands/relay.rs:243-292 | the four outcomes and what each writes and commits |
| `Relay.AtLeastOnce` | tools/hook/src/commands/relay.rs:68-81 | over every run with crashes and ambiguous sends, each offset below the committed position is on the output with its key and payload, or was refused by the loop, or was passed over without ever being processed to an end |
| `Relay.OutputIsVerbatim` | tools/hook/src/commands/relay.rs:243-342 | every record a run adds to the output is a logged input message with its key and payload |
| `Relay.RunOrdersExactly` | tools/hook/src/commands/relay.rs:68-81 | over every run, late broker writes included, the output of each process life keeps input offset order if and only if every late write lands before a later message of that life |
| `Relay.LateWriteReorders` | tools/hook/src/commands/relay.rs:294-342 | for any two messages there is a run in which a failed send of the first lands behind the second |
| `Relay.OrderedFanIn` | tools/hook/src/commands/relay.rs:68-81 | when no failed send is written late, the output of each process life keeps input offset order |
| `Relay.DuplicatesBounded` | tools/hook/src/commands/relay.rs:294-342 | one process life leaves at most max(1, n) copies of an offset, late writes included; only restarts add more |
| `Relay.RefusedExactly` | tools/hook/src/commands/relay.rs:243-342 | refusal means exactly: no payload, not an envelope in envelope mode, or no acknowledgement in any allowed send |
| `Relay.CommitsExactly` | tools/hook/src/commands/relay.rs:243-292 | the loop body commits if and only if there is a payload, an envelope where one is demanded, an acknowledged send within the budget and an accepted commit |
| `Relay.RunRequestsExactly` | tools/hook/src/commands/relay.rs:68-81 | over every run an offset is committed exactly when the message before it is polled and that condition holds |
| `Relay.PublishedExactly` | tools/hook/src/commands/relay.rs:294-342 | a message is written once for every send that reaches the topic, and not sent again once acknowledged |
| `Retry.BackoffExact` | src/producer.rs:177-181 | the saturating 64-bit backoff is the minimum of the cap and base times two to the min(i, 31) over unbounded integers |
| `Retry.BackoffDoubles` | src/producer.rs:177-181 | the first delay is the base, each of the next thirty-one doubles it, later ones repeat the last, all within the cap |
| `Retry.BackoffMonotone` | tools/hook/src/commands/relay.rs:344-348 | the backoff never decreases with the attempt number |
| `Retry.TotalSleepBound` | crates/hook-runtime/src/adapters/egress/openclaw.rs:249-253 | the total sleep is bounded by the cap and by the geometric sum |
| `Retry.TotalSleepExact` | src/producer.rs:56-104 | below the cap the delays sum up to base times (2^n − 1), from the cap on to n times the cap |
| `Retry.PublishWithRetry` | src/producer.rs:46-105 | terminates after 1 to max(1, n) sends, succeeds exactly when an allowed send is acknowledged, stops at the first acknowledgement |
| `Retry.ForwardWithRetry` | crates/hook-runtime/src/adapters/egress/openclaw.rs:55-119 | at most n posts, none after the first answer that is not retryable |
| `Retry.RetrySleepBound` | src/producer.rs:56-104 | the longest sleep of a loop with a budget of retries |
| `Idempotency.IdempotencyStore.Check` | src/idempotency.rs:29-77 | the two pruned maps and the decision follow the specification, and the recorded history stays genuine |
| `ExpiringMap.HoldsExactlyLive` | src/idempotency.rs:80-82 | a pruned map holds a key exactly when some earlier write of it is unexpired at every pruning since |
| `Idempotency.DecisionExact` | src/idempotency.rs:39-77 | every decision, whatever the clock does, read off the history of calls and their clocks |
| `Idempotency.PruningUnobservable` | src/idempotency.rs:29-82 | on a non-decreasing clock each decision equals that of a store that never forgets: duplicate iff an earlier non-duplicate call with the key is younger than the lifetime, cooldown iff an earlier accepted call is |
| `Idempotency.RejectionsJustified` | src/idempotency.rs:39-77 | whatever the clock does, a duplicate or cooldown answer has its reason in the history |
| `Idempotency.BackwardClockForgets` | src/idempotency.rs:80-82 | a concrete run with a clock stepping back in which a key is accepted twice within its lifetime |
| `Idempotency.ForgetsExactly` | src/idempotency.rs:39-82 | a key is let through within its lifetime if and only if every recent writer was pruned by a later call with a clock past its expiry |
| `Idempotency.DedupSpacing` | src/idempotency.rs:39-53 | with a clock lagging at most d, non-duplicate answers on one key are at least the lifetime minus d apart |
| `Idempotency.CooldownSpacing` | src/idempotency.rs:55-77 | with a clock lagging at most d, accepts on one cooldown key are at least the cooldown minus d apart |
| `Idempotency.AcceptRateBound` | src/idempotency.rs:55-77 | any interval of length T holds at most T / cooldown + 1 accepts of an entity |
| `LockedMap.UninterruptedIsAtomic` | src/idempotency.rs:39-77 | the two locked sections in a row are one call of the store |
| `LockedMap.GrantedExactly` | src/idempotency.rs:39-82 | at one lock and under any clock, a visit is granted if and only if every earlier grant of its key is a lifetime old or was followed by a visit whose clock reached its expiry |
| `LockedMap.GrantedInOrder` | src/idempotency.rs:39-82 | for clocks in lock order, if and only if every earlier grant of its key is a lifetime old |
| `LockedMap.OthersUnnoticed` | src/idempotency.rs:39-82 | for clocks in lock order, the answers to the visits with some keys are those the lock would give without the others |
| `LockedMap.GrantsSpaced` | src/idempotency.rs:39-82 | at one lock, with clocks lagging at most d in lock order, grants of one key are at least the lifetime minus d apart |
| `StoreLocks.ConcurrentDedupSpacing` | src/idempotency.rs:39-53 | in every interleaving of concurrent calls between the two locks, non-duplicate answers on one key are at least the lifetime minus d apart |
| `StoreLocks.ConcurrentCooldownSpacing` | src/idempotency.rs:55-77 | in every such interleaving accepts on one cooldown key are at least the cooldown minus d apart |
| `RateLimiter.SourceRateLimiter.Allow` | src/middleware.rs:26-49 | the in-place window update and the answer follow the specification |
| `RateLimiter.AllowedExactly` | src/middleware.rs:26-49 | whatever the clock does, a request is admitted exactly when fewer than the limit of its source stand before it in its unbroken stretch of that minute |
| `RateLimiter.OthersUnnoticed` | src/middleware.rs:26-49 | whatever the clock does, a source is answered as if it were alone |
| `RateLimiter.AdmitsExactlyTheLimit` | src/middleware.rs:26-49 | whatever the clock does, a source and minute admit exactly min(limit, requests) if and only if the minute is entered at most once, the requests stay within the limit, or the limit is zero |
| `RateLimiter.AdmitsPerStretch` | src/middleware.rs:26-49 | whatever the clock does, a minute admits at most the limit each time it is entered |
| `RateLimiter.InOrderOneStretch` | src/middleware.rs:26-49 | requests whose minutes reach the limiter in order enter each minute at most once |
| `RateLimiter.OutOfOrderExceeds` | src/middleware.rs:26-49 | with a limit of one and clocks 59, 60, 59 all three requests are admitted |
| `RateLimiter.NeverSaturates` | src/middleware.rs:26-49 | after any history the saturating increment is plain addition |
| `RateLimiter.SlidingMinuteBound` | src/middleware.rs:26-49 | any sixty-second interval admits at most the limit for each time one of its two minutes is entered, hence twice the limit when minutes reach the limiter in order |
| `RateLimiter.SlidingMinuteBoundReached` | src/middleware.rs:26-49 | that bound is reached |
| `Timestamps.WindowExact` | crates/relay-core/src/timestamps.rs:22-37 | for every 64-bit clock and window the test is the plain distance test, except that a distance of 2^63 passes and a larger one counts backwards from 2^64 |
| `Timestamps.SecondsExact` | crates/relay-core/src/timestamps.rs:3-37 | an integer up to 10 000 000 000 is tested as seconds |
| `Timestamps.MillisecondsExact` | crates/relay-core/src/timestamps.rs:3-37 | a larger one is tested as milliseconds, cut down to whole seconds |
| `Timestamps.TextExact` | crates/relay-core/src/timestamps.rs:9-10 | a decimal numeral in a string passes exactly when the number does |
| `Timestamps.OthersFail` | crates/relay-core/src/timestamps.rs:3-14 | other strings, integers beyond 64 bits, other values and a missing timestamp never pass |
| `Timestamps.OverflowingEpochPasses` | crates/relay-core/src/timestamps.rs:22-37 | at every clock from the epoch on one timestamp passes every window |
| `Timestamps.WindowBoundsReplay` | crates/relay-core/src/timestamps.rs:3-37 | while clock plus window fits 64 bits, one timestamp passes only at clocks at most two windows apart |
| `Timestamps.ReplayBoundExact` | crates/relay-core/src/timestamps.rs:3-37 | for windows up to 2^61 the replay bound holds at a clock if and only if clock plus window fits 64 bits |
| `Sources.KeysAreOwned` | crates/relay-core/src/keys.rs:1-16 | the deduplication and cooldown keys of a request carry their source's prefix |
| `Sources.KeySpacesDisjoint` | src/sources/example.rs:55-63 | no key belongs to two sources |
| `SourceLaws.CooldownEntities` | src/sources/github.rs:103-107 | the fields a cooldown entity is taken from, first present first, per source |
| `SourceLaws.CooldownScopes` | src/sources/github.rs:51-55 | the fields a cooldown scope is taken from; slashes in repository names become dashes |
| `SourceLaws.CooldownKeyExact` | crates/relay-core/src/keys.rs:1-16 | a cooldown key is there exactly when scope and entity are, and spells source, scope and entity |
| `SourceLaws.DedupEntities` | src/sources/github.rs:95-101 | what a deduplication key falls back to without a cooldown entity, finally the word unknown |
| `SourceLaws.DedupKeyExact` | src/sources/github.rs:42-49 | the key spells source, delivery header, action and entity; without a delivery header there is none |
| `SourceLaws.GithubEventType` | src/sources/github.rs:69-84 | event header and action |
| `SourceLaws.LinearEventType` | src/sources/linear.rs:58-76 | type or event header, and action, in lower case |
| `SourceLaws.ExampleEventType` | src/sources/example.rs:44-103 | event header or payload field, and action, in lower case |
| `Admission.SourcesIndependent` | src/main.rs:264-412 | deleting all other sources' arrivals from a run leaves every answer of a source unchanged |
| `Admission.RequestsIndependent` | src/main.rs:264-412 | the same for requests with the keys the handler prints for them |
| `Serve.ResolveServeRoute` | src/main.rs:1114-1123 | the loop returns the first matching route |
| `Serve.FirstMatchIsFirst` | src/main.rs:1114-1123 | the route found matches and no earlier one does; none found means none matches |
| `Serve.PreparedTopic` | src/main.rs:414-490 | a prepared job goes to its first matching route's topic, and to the source topic only if there are no routes |
| `Serve.DirectTopic` | src/main.rs:671-739 | a direct event goes to its first matching route's topic, else to the source topic |
| `HandlerLaws.ResolvedExactly` | src/main.rs:247-263 | a path leads to a source if and only if it is the name up to case and blanks and the source is enabled |
| `HandlerLaws.PrecheckExactly` | src/main.rs:284-383 | a request passes if and only if signature, body, Linear window, event type and delivery id do, and carries what they found |
| `HandlerLaws.FirstCheckAnswers` | src/main.rs:284-345 | the first failing check gives the answer |
| `HandlerLaws.SourceTopicExact` | src/config.rs:440-451 | the first configured topic that is or ends in the source name, else prefix and name |
| `HandlerLaws.PreparedEnvelope` | src/main.rs:414-490 | what a queued envelope holds: id, time, source, sanitized payload, event type and flags after the plugins, and adapter, route and trace |
| `HandlerLaws.PreparationRefusesExactly` | src/main.rs:414-476 | preparation refuses exactly payloads that are no objects, those a plugin rejects, and events that none of the routes takes |
| `HandlerLaws.DirectEnvelope` | src/main.rs:671-739 | the same for events from the other ingress adapters |
| `HandlerLaws.DirectTypes` | src/main.rs:671-739 | where the event type of a direct event comes from |
| `Serve.AppState.PrepareJob` | src/main.rs:414-490 | sanitize, plugins and routing in this order, with each refusal |
| `Serve.AppState.WebhookHandler` | src/main.rs:247-530 | limiter, checks, store, preparation and queue in this order: what each answer means for the two histories and the queue |
| `Serve.AppState.EnqueuePrevalidated` | src/main.rs:671-739 | a direct event touches the queue only, and only if it is well-formed and there is room |
| `Serve.AppState.TrySend` | src/main.rs:491-530 | the bounded queue: closed, full or appended |
| `Serve.RunPublishWorker` | src/producer.rs:164-174 | the worker processes the queued jobs in order, each published exactly when a send is acknowledged |
| `ServeRun.ServeConserves` | src/main.rs:247-530 | in every interleaving the jobs answered ok are, in FIFO order, those the worker finished, published or not, the one in flight and those queued, and the queue stays within its capacity |
| `ServeRun.HttpJobsEarned` | src/main.rs:247-530 | every HTTP job passed limiter, checks and both locked sections of the store and goes to the topic of its first matching route |
| `ServeRun.LinearDeliveryQueuedOnce` | src/main.rs:264-412 | with the window enforced and 2·window + lag below the lifetime, no two queued jobs of any run, down to the interleaving of the two locks, come from one Linear delivery |
| `ServeRun.FailedDeliveryBlocksRetry` | src/main.rs:385-530 | a request that passed its checks and ended refused, cooling down or without a place in the queue keeps every request with its key out of the queue for the lifetime minus the lag |
| `ServeLaws.AnsweredDuplicateExactly` | src/main.rs:385-412 | in every interleaving a request that got past its checks is answered duplicate if and only if an earlier visit to the first lock still held its key; for clocks in lock order, if and only if the key was granted less than a lifetime ago |
| `ServeLaws.SourcesUnnoticed` | src/main.rs:264-412 | in every interleaving with clocks in lock order, limiter and both locks of the store answered a source as if no other source had asked |
| `ServeLaws.AnswersExplained` | src/main.rs:247-530 | in every interleaving each answer has its reason: no such source, a denied rate entry, a failed check or preparation, a denied lock, a ticket, or a full or closed queue after every stage was passed |
| `ServeReplay.HandledAlone` | src/main.rs:247-530 | a request that limiter and store let through, handled without interruption, is queued or finds the queue full and leaves exactly its own traces |
| `ServeReplay.ReplayQueuedTwice` | src/main.rs:264-412 | with a lifetime of at most two windows there is, for every Linear delivery queued a window early, a run that queues its replay a window late as well |
| `ServeReplay.ReplayQueuedTwiceWithLag` | src/main.rs:264-412 | with a lifetime between two windows and two windows plus the lag, a request with a clock ahead by the lag prunes the key and the replay is queued again |
| `ServeReplay.RetryShutOut` | src/main.rs:385-530 | a delivery that finds the queue full is answered duplicate when retried within the lifetime, although the worker has made room |
| `ServeWitness.RetryIsShutOutSomewhere` | src/main.rs:385-530 | a configuration and a run in which that happens |
| `ServeWitness.ReplayHappensSomewhere` | src/main.rs:264-412 | for every window a configuration with a lifetime of two windows and a run that queues one delivery twice |
| `ServeWitness.LaggingReplayHappensSomewhere` | src/main.rs:264-412 | for every window and lag a configuration with a lifetime of two windows plus the lag and such a run |
| `Plugins.ApplyServePlugins` | src/main.rs:1063-1094 | the serve interpreter's loop computes its specification and fails on the first missing pointer |
| `Plugins.ApplySmashPlugins` | crates/hook-runtime/src/smash/consumer.rs:318-354 | the smash interpreter's loop on a cloned envelope computes its specification |
| `Plugins.SmashPluginsCompose` | crates/hook-runtime/src/smash/consumer.rs:318-354 | running p ++ q is running q after p, errors included |
| `Plugins.RejectionIgnoresOrder` | crates/hook-runtime/src/smash/consumer.rs:318-354 | a list fails iff some required pointer is absent from the original payload, whatever the order |
| `Plugins.AliasRenames` | crates/hook-runtime/src/smash/consumer.rs:330-334 | an alias renames its event type and nothing else |
| `Plugins.FieldIsRequired` | crates/hook-runtime/src/smash/consumer.rs:335-343 | a required field that is absent rejects the envelope, one that is present changes nothing |
| `Plugins.FlagIsAdded` | crates/hook-runtime/src/smash/consumer.rs:344-349 | a flag is appended unless present, creating metadata where there is none |
| `PointerLaws.PointerReaches` | crates/hook-runtime/src/smash/consumer.rs:335-343 | a pointer with escaped labels finds exactly what stands at the place the labels lead to (section 4 of RFC 6901) |
| `PointerLaws.EveryPlaceHasPointer` | crates/hook-runtime/src/smash/consumer.rs:335-343 | every place of a document with distinct keys has such a pointer |
| `Plugins.SmashPluginsPreserve` | crates/hook-runtime/src/smash/consumer.rs:318-354 | identity and payload are kept, old flags stay a prefix, flags stay duplicate-free and are exactly the old ones and the added ones |
| `Plugins.InterpretersAgree` | src/main.rs:1063-1094 | from an unflagged envelope both interpreters give the same event type, payload and flags, or the same failure |
| `Sanitize.ExtractAllStrings` | crates/relay-core/src/sanitize.rs:98-127 | the recursive traversal appends exactly the scanned leaves with their paths |
| `Sanitize.LeavesExact` | crates/relay-core/src/sanitize.rs:98-127 | the traversal visits exactly the string leaves over ten bytes |
| `Sanitize.LeavesOrdered` | crates/relay-core/src/sanitize.rs:98-127 | each once, in document order |
| `Sanitize.FindAllHits` | crates/relay-core/src/sanitize.rs:62-77 | the loop computes the hits of the scanned leaves; what they are is stated by SanitizeReports |
| `Sanitize.HitCountExact` | crates/relay-core/src/sanitize.rs:79-96 | the count of a text is the number of patterns that occur in it |
| `Sanitize.SanitizePayload` | crates/relay-core/src/sanitize.rs:38-60 | marks a copy of the object, or fails on a blank source or a payload that is no object |
| `Sanitize.SanitizeReports` | crates/relay-core/src/sanitize.rs:38-127 | `_flags` has one entry for each string leaf over ten bytes in which some pattern occurs, in document order, with its dotted path and the number of patterns; all other members are unchanged |
| `Sanitize.PathSplitsToLabels` | crates/relay-core/src/sanitize.rs:98-127 | splitting a path at its dots gives back the labels exactly when no label has a dot and the first is non-empty or alone |
| `Sanitize.PlacedByLabels` | crates/relay-core/src/sanitize.rs:98-127 | in a document with distinct keys, labels lead to a place if and only if they are the labels on the way to it |
| `Sanitize.ReportedPathLeadsBack` | crates/relay-core/src/sanitize.rs:62-127 | a reported path, split at its dots, leads back to the place it was reported for if and only if no key on the way has a dot and the first is non-empty or alone |
| `Sanitize.DottedKeyLosesLeaf` | crates/relay-core/src/sanitize.rs:62-127 | for every key with a dot and every hit text there is a payload whose leaf is reported under a path that leads nowhere |
| `ContractValidator.ValidateContract` | crates/relay-core/src/contract_validator.rs:26-116 | the validators run one after the other over one error list; the profile is valid exactly when the list stays empty |
| `ContractValidator.IndexEgressAdapters` | crates/relay-core/src/contract_validator.rs:118-136 | the index keeps the last adapter of each id |
| `ContractValidator.ValidateProfileRefs` | crates/relay-core/src/contract_validator.rs:138-185 | appends one critical error per dangling reference, in order |
| `ContractValidator.ValidateIngressSchemas` | crates/relay-core/src/contract_validator.rs:187-250 | appends the schema errors of the active ingress adapters |
| `ContractValidator.ValidateEgressSchemas` | crates/relay-core/src/contract_validator.rs:252-363 | appends the schema errors of the active egress adapters and their dangling transport references |
| `ContractValidator.CollectActiveTransportRefs` | crates/relay-core/src/contract_validator.rs:365-379 | the sorted set of the transports that active adapters name |
| `ContractValidator.ValidateTransportSchemas` | crates/relay-core/src/contract_validator.rs:381-428 | appends the schema errors of the named transports |
| `ContractValidator.ValidateConfigSchema` | crates/relay-core/src/contract_validator.rs:430-476 | appends unknown keys, then missing or empty required keys |
| `ContractValidator.ValidateRouteDestinations` | crates/relay-core/src/contract_validator.rs:478-522 | appends the errors of routes without destinations or with inactive or missing ones |
| `ContractValidator.ValidateNoOutputPolicy` | crates/relay-core/src/contract_validator.rs:524-571 | appends the no-output errors unless some active destination exists |
| `ProfileValidity.ValidatedExactly` | crates/relay-core/src/contract_validator.rs:26-116 | a profile validates exactly when it exists, all its references, tables, routes and its output policy hold, and it is labelled unless in debug mode |
| `IssueLaws.EgressKeys` | crates/relay-core/src/contract_validator.rs:252-309 | the required and optional keys of every egress driver |
| `IssueLaws.IngressKeys` | crates/relay-core/src/contract_validator.rs:187-250 | the required and optional keys of every ingress driver |
| `IssueLaws.IndexIsLast` | crates/relay-core/src/contract_validator.rs:118-136 | the index holds the last adapter of each id |
| `IssueLaws.ReportedExactly` | crates/relay-core/src/contract_validator.rs:26-116 | an issue is reported if and only if the profile deserves it: code, named values and criticality, part by part |
| `IssueLaws.ReportedInOrder` | crates/relay-core/src/contract_validator.rs:26-116 | issues come part by part: references, ingress, egress and transport tables, routes, output policy, label |
| `ContractLaws.DebugKeepsCritical` | crates/relay-core/src/contract_validator.rs:26-116 | the debug-mode error list is the strict-mode list filtered to its critical errors, in order |
| `ContractLaws.DebugNeverAdmitsCritical` | crates/relay-core/src/contract_validator.rs:573-592 | a critical error in strict mode fails debug mode as well |
| `ContractLaws.ValidationDependsOnNamed` | crates/relay-core/src/contract_validator.rs:118-185 | contracts that agree on what the profile names validate alike, errors in the same order |
| `ContractLaws.InactivePartsIrrelevant` | crates/relay-core/src/contract_validator.rs:26-116 | inserting any number of unnamed adapters, routes, transports or profiles anywhere changes neither the result nor the ordered error list |
| `Projection.CollectRoutes` | tools/hook/src/commands/smash.rs:271-313 | the route loop keeps the named routes with trimmed literal patterns and collects exactly their patterns as topics |
| `Projection.CollectTransports` | tools/hook/src/commands/smash.rs:315-326 | the transport loop, with its first error |
| `Projection.ResolveActiveSmashContract` | tools/hook/src/commands/smash.rs:211-339 | validation, then adapters, routes and transports, each with its error; forced past errors that are not critical it yields an empty runtime |
| `ProjectionLaws.ValidIsProjected` | tools/hook/src/commands/smash.rs:211-256 | the command-line mode replaces the contract's; a valid profile is projected, critical issues always stop it, others unless forced |
| `ProjectionLaws.ValidatedNamesProfile` | crates/relay-core/src/contract_validator.rs:104-116 | a validated profile names what the contract's profile names, and what debug mode skipped |
| `ProjectionLaws.AdapterSpelled` | tools/hook/src/commands/smash.rs:341-403 | an adapter is projected to exactly what its id, table and plugin list spell out, key by key |
| `ProjectionLaws.TargetSpelled` | tools/hook/src/commands/smash.rs:341-403 | the keys each target field is read from, with their bounds and defaults |
| `ProjectionLaws.PluginsSpelled` | tools/hook/src/commands/smash.rs:405-432 | the plugin list is read one for one, driver, from, to, pointer and flag by name |
| `ProjectionLaws.RouteSpelled` | tools/hook/src/commands/smash.rs:271-313 | a route keeps id, filters and destinations and has its literal pattern trimmed |
| `ProjectionLaws.TransportSpelled` | tools/hook/src/commands/smash.rs:434-462 | the keys each transport field is read from |
| `StartupLaws.AdapterIdsProjected` | tools/hook/src/commands/smash.rs:258-269 | the projected adapters are the named ones, in order, once each |
| `StartupLaws.RoutesClosed` | tools/hook/src/commands/smash.rs:271-313 | every projected route has destinations, all among the projected adapters, and a literal topic |
| `StartupLaws.TransportsProjected` | tools/hook/src/commands/smash.rs:315-326 | every projected MCP adapter's transport is projected under its name |
| `RuntimeConfig.CheckAdapters` | crates/hook-runtime/src/smash/config.rs:247-444 | the adapter loop with its growing id set finds the first error |
| `RuntimeConfig.CheckRoutes` | crates/hook-runtime/src/smash/config.rs:446-470 | the route loop finds the first error, and its counter tells whether any destination exists |
| `RuntimeConfig.Validate` | crates/hook-runtime/src/smash/config.rs:238-492 | the first error of the whole check, in the source's order |
| `RuntimeConfig.DeriveTopicsFromRoutes` | crates/hook-runtime/src/smash/config.rs:611-628 | the sorted set of the literal patterns, or the first wildcard |
| `StartupLaws.AdaptersAccepted` | crates/hook-runtime/src/smash/config.rs:247-255 | the adapter loop passes exactly when ids are distinct and non-blank and every adapter passes its own check |
| `StartupLaws.RoutesAccepted` | crates/hook-runtime/src/smash/config.rs:446-470 | the route loop passes exactly when ids are distinct and every route is acceptable |
| `StartupLaws.StartsExactly` | crates/hook-runtime/src/smash/config.rs:139-236 | a profile that projects to some route starts exactly when its active ids are distinct and the listed single-value conditions hold |
| `RunningLaws.FailsOnlyOnFields` | crates/hook-runtime/src/smash/config.rs:238-492 | with distinct active ids the id, destination, transport, pattern, topic and no-output checks never fail |
| `RunningLaws.AuthenticatedWebsocketNeverStarts` | crates/hook-runtime/src/smash/config.rs:330-420 | a projected profile with a websocket output whose authentication mode is not "none" never starts |
| `StartupWitness.BearerNeverStarts` | crates/hook-runtime/src/smash/config.rs:362-420 | a concrete contract with a bearer websocket output validates and projects, and no environment starts it |
| `StartupWitness.UnauthenticatedStarts` | crates/hook-runtime/src/smash/config.rs:362-420 | the same contract without authentication starts in every environment with a sane size limit and dead-letter topic |
| `RunningLaws.NoMissingTransport` | tools/hook/src/commands/smash.rs:315-326 | a validated profile with distinct ids never projects into a missing transport |
| `RunningLaws.MissingAdapterUnreachable` | crates/hook-runtime/src/smash/consumer.rs:266-273 | in a started runtime every scheduled destination has its adapter and a plugin list |
| `ProjectionLaws.ConsumerGetsRuntime` | crates/hook-runtime/src/smash/consumer.rs:69-84 | the consumer of a started runtime has its routes and policy, and every adapter with its own plugins |
| `ProjectionLaws.ScheduledPluginsSpelled` | crates/hook-runtime/src/smash/consumer.rs:69-84 | whatever is scheduled runs with the plugins its adapter spells out in the contract |
| `ProjectionLaws.PolicyHandedOver` | tools/hook/src/commands/smash.rs:328-338 | the consumer runs with the contract's output policy |
| `RunningLaws.PluginAcceptedExactly` | crates/hook-runtime/src/smash/config.rs:536-573 | which plugins the runtime accepts |
| `RunningLaws.FlagTopicsWin` | crates/hook-runtime/src/smash/config.rs:139-145 | the topics flag beats contract and environment |
| `RunningLaws.LegacyRuntime` | crates/hook-runtime/src/smash/config.rs:165-193 | what the fallback consists of |
| `RunningLaws.OutputsAlwaysExist` | crates/hook-runtime/src/smash/config.rs:150-193 | every route of every runtime started from a contract has destinations |
| `TopicLaws.TopicsRoundTrip` | crates/hook-runtime/src/smash/config.rs:645-651 | trimmed topics survive the comma-separated variable exactly when none contains a comma |
| `TopicLaws.DerivedAsProjected` | crates/hook-runtime/src/smash/config.rs:611-628 | for literal patterns the runtime derives the topics the projection collected |
| `TopicLaws.WildcardsRefused` | crates/hook-runtime/src/smash/config.rs:611-628 | the derivation fails if and only if some pattern has a star, and names such a route |
| `TopicLaws.TopicsAscend` | tools/hook/src/commands/smash.rs:271-313 | the topics come strictly ascending |
| `TopicLaws.LiteralMatchesItself` | crates/hook-runtime/src/smash/consumer.rs:356-384 | a pattern without stars matches its own text and nothing else |
| `RunningLaws.SubscribesToRoutes` | tools/hook/src/commands/smash.rs:39-47 | the runtime subscribes to its routes' topics exactly when they are comma-free or nothing is left of them |
| `RunningLaws.RoutedExactly` | crates/hook-runtime/src/smash/consumer.rs:177-192 | with literal routes a message is scheduled somewhere exactly when a route has its topic and takes its event type |
| `RunningLaws.EveryMessageRouted` | crates/hook-runtime/src/smash/consumer.rs:177-192 | with comma-free topics and no event filters every message of a subscribed topic is attempted: the no-output path is unreachable |

## Left out

- The internals of rdkafka, axum, reqwest, tokio and tungstenite: sends, polls and commits are steps with arbitrary outcomes, and the job channel is a bounded FIFO queue.
- Several partitions in one run: each partition's log, position and commit are independent, and one of them is modelled.
- HMAC, tokens and constant-time comparison: the outcome of the signature check is part of the request.
- The regex engine and the injection patterns: a pattern is an arbitrary predicate on strings.
- TOML and JSON parsing, environment variables and the formatting of clocks and identifiers: the model starts from parsed values, with fresh identifiers and the clock as inputs.
- The client IP limiter and trusted-proxy handling in front of the handler: they rest on library code.
- Websocket sessions, MCP processes and the token variables read while adapters are built: input and output around library channels.
- The websocket client's own retry loop: same shape as the modelled retry loops.
- The poisoned-lock branches of the store and the limiter.
- Idempotency.IdempotencyStore.Check: does not model the 64-bit overflow of clock plus lifetime, which needs a clock near 2^63 seconds.
- Admission.SourcesIndependent: takes limiter and store of one request as one step; ServeLaws.SourcesUnnoticed states independence lock by lock for every interleaving.
- Admission.RequestsIndependent: the same one-step admission, with the keys the handler prints.
- RuntimeConfig.Validate: errors carry the adapter, route and field they name instead of the message text.
- ContractValidator.ValidateContract: errors carry their code, the values their message names and whether they are security-critical, instead of the message text.
- Ambient adapter and route variables that the contract does not override: the start-up model takes them as unset.
- The command line, capability reports, replay and log commands, scripts and service units: they hold no protocol logic.
