# Link Tracker, verified

Link Tracker polls GitHub and StackOverflow for the links its chats track and tells the chats what is new. This
project models the parts that decide whether a notification arrives, and proves what they promise.

- `fetch.dfy`, `check_link.dfy`, `verdicts.dfy`, `link_checker.dfy`, `watermark.dfy`: fetching the posts of a link
  after its watermark, one check of a link with and without the outbox, and runs of checks.
- `publisher.dfy`, `blocking.dfy`, `consumer.dfy`, `handling.dfy`, `pipeline.dfy`, `delivery.dfy`: the outbox
  publisher, the bot's Kafka consumer with retries, dead letter topic and manual commits, and all of it together as
  one state machine in which any call may fail, may take effect without being acknowledged, and any process may stop
  between two effects. Scrapper and bot share one topic, as in `docker-compose.yml:248` and `docker-compose.yml:298`.
- `chunks.dfy`, `effects.dfy`, `interleaving.dfy`, `pool.dfy`, `passes.dfy`, `batch.dfy`, `failure_reports.dfy`: the
  worker pool of one batch under every interleaving, what a batch does to each of its links, and the table that
  suppresses repeated failure reports.
- `paging.dfy`, `runs.dfy`, `outcomes.dfy`, `scheduler.dfy`: whole runs of the scheduler, page after page, also while
  other requests change the subscriptions, and what a run leaves of each link.
- `store.dfy`, `store_refinement.dfy`, `store_effects.dfy`, `database.dfy`, `list_cache.dfy`: the five tables with
  their keys and cascades as a refinement of "chat to tag names, and url to tags", what each operation does to what a
  chat tracks and tags, the SQL repositories, and the read cache.
- `grouping.dfy`, `rate_limiter.dfy`, `admission.dfy`, `breaker.dfy`, `avro.dfy`, `avro_wire.dfy`: the agent's
  per-chat buffer, the rate limiter that forgets idle visitors and which requests it admits, the circuit breaker, and
  the Avro codec with its bytes.

Code that changes state in place is a class whose methods are proved equal to functions on values; what is promised
about whole runs is proved about those functions. What each function computes is then said once more without it, over
the fields of what it is given: the lemmas named `...Exactly`.

## How to read the model

- `Call` is the outcome of a remote call: `Worked`, `Refused` (no effect, error reported) or `Unacknowledged` (took
  effect, error reported). A crash before an effect is a refused call, a crash after it an unacknowledged one.
- Clocks, random outcomes and the pages of the sources are parameters: every theorem holds for all of them.
- `Time` is a whole number of nanoseconds, zero being Go's zero time. `Update.post` is the identity of a post at its
  source. The code has no such field and no operation reads it; it lets claims speak of one post rather than of equal
  texts.
- The rate limiter counts time in tokens (a clock reading times the rate), so that one unit of time brings one token;
  the class counts in seconds and is tied to the specification by that scaling.
- Assumed, because the code does not decide it: one scheduler run and one publisher round at a time
  (`scheduler.go:94-97`, `outbox_publisher.go:58-63`), no rebalancing and no retention in Kafka, a database
  transaction is atomic, one half-open call of the breaker at a time, requests to the rate limiter and to the list
  cache one after another.

## What the proofs found

- Which posts a run of checks notifies, exactly (`WrittenExactly`): a post that a source shows late, or that a full
  page leaves out, and that is dated at or before the watermark never is (`TruncatedPageMisses` shows one). `Add` of
  a URL that is already tracked overwrites the watermark for everyone who follows it (`AddOverwritesWatermark`), and
  the baseline after it silences what was not yet noticed (`BaselineSwallows`).
- `SaveOutboxMessages` at `scheduler.go:333` is never reached (`NonEmptyIffLater`, `OutboxStep`).
- Nothing writes the status FAILED. While some rows are always refused, another one is published exactly when fewer
  of them than a batch holds are older than it (`ReachedExactly`).
- Direct mode loses updates when a check stops after the watermark is stored; `DirectLosesExactly` says which.
- An `Add` that commits but reports an error leaves a stale list in the cache (`UnacknowledgedAddGoesStale`);
  `StaleExactly` says exactly when an operation does.
- A failure found while a link has no subscribers is not reported to chats that subscribe later; `ReportedExactly`
  says exactly when a failure is reported.
- A run skips links when others before them are unsubscribed between two page reads, and checks a link twice when
  others before it are subscribed; `PageContinuesExactly` gives the exact condition, and `RunChecksEveryLink` what
  still holds.
- `Allow` reads the clock twice. With at most `lag` between the readings, forgetting is invisible exactly when
  rate * ttl >= burst + min(1, rate * lag) and rate * (ttl - lag) >= 1 (`InvisibleIffEnough`); rate * ttl >= burst
  alone is enough only when there is no lag (`EnoughWithoutLag`).
- A half-open breaker closes at a failure rate of exactly the threshold, at which a closed one trips
  (`AtTheThreshold`).
- `schemas/link_update_event.avsc` has no `priority` and another namespace than the schema in the code; the model
  follows the code.

## Model

| member | source | states |
|---|---|---|
| Fetch.GetNewIssuesAndPullRequests | scrapper/internal/infrastructure/clients/github_client.go:168-196 | The GitHub loop returns the filtered page, in order, and the maximum of `since` and the dates kept |
| Fetch.GetNewReplies | scrapper/internal/infrastructure/clients/stackoverflow_client.go:233-258 | The answers loop and the comments loop (288-313): the filtered page in order and the maximum date |
| Fetch.GetNewAnswersAndComments | scrapper/internal/infrastructure/clients/stackoverflow_client.go:142-177 | The merged fetch equals one filtered fetch over the answers followed by the comments, and fails exactly when one of the three requests does |
| Fetch.NewUpdatesKeepsExactlyTheNew | scrapper/internal/infrastructure/clients/stackoverflow_client.go:236-256 | The filter drops exactly the posts not dated after a non-zero `since`: nothing is reordered, repeated or invented |
| Fetch.NewUpdatesCount | scrapper/internal/infrastructure/clients/github_client.go:171-194 | Each update is kept as often as the page shows it if it is new, and never if it is not |
| Fetch.LatestIsMaximum | scrapper/internal/infrastructure/clients/stackoverflow_client.go:164-174 | The returned time is an upper bound of `since` and all dates, and one of them |
| Fetch.NonEmptyIffLater | scrapper/internal/application/services/scheduler.go:268-333 | Past the first check updates are non-empty exactly when the new watermark is later, so line 333 is never reached |
| Fetch.IssuesTold | scrapper/internal/infrastructure/clients/github_client.go:168-196 | Update k tells of the k-th new item of the page, field by field: post, link, URL, title, login, date, preview, and whether it is a pull request |
| Fetch.RepliesTold | scrapper/internal/infrastructure/clients/stackoverflow_client.go:233-258 | The same for answers and comments, with the question's title and a date in Unix seconds |
| Fetch.UnixTimeExactly | scrapper/internal/infrastructure/clients/stackoverflow_client.go:237-237 | A Unix second is that second after the days of the Gregorian calendar before 1970 |
| LinkChecking.LinkChecker.ProcessLink | scrapper/internal/application/services/scheduler.go:240-337 | processLink changes watermarks, outbox and direct sends as the specification Check says, on every branch and for every fault, and reports an error iff one of the listed failures occurs (see VerdictExactly) |
| Verdicts.VerdictExactly | scrapper/internal/application/services/scheduler.go:240-337 | An error is reported iff the URL does not parse, or the fetch fails, or a baseline's write is not acknowledged, or a post is later than the watermark and the write is not acknowledged, the subscriber lookup fails, or there are subscribers and a later post does not encode (outbox) or one of the sends fails (direct) |
| Verdicts.MarkExactly | scrapper/internal/application/services/scheduler.go:260-331 | The link's watermark moves iff a write is made and takes effect, to the latest date of the page, or to the clock at a baseline whose page has no date; no other watermark moves |
| Verdicts.RowsExactly | scrapper/internal/application/services/scheduler.go:283-334 | Rows are stored iff the outbox is on, a post is later, there are subscribers, all later posts encode and the write takes effect: one pending row for each later post, in page order, for those subscribers, with no attempts and its own stamp |
| Verdicts.HandedExactly | scrapper/internal/application/services/scheduler.go:272-321 | Without the outbox the later posts are handed over iff the write was acknowledged and there are subscribers: in page order, up to and with the first send that fails |
| LinkChecking.LinkChecker.ForEachUpdate | scrapper/internal/application/services/scheduler.go:291-321 | The loop collects one row per update or stops at the first that does not encode; without the outbox it sends a prefix that ends with the first failing send |
| LinkChecking.LinkChecker.SaveLinkUpdateOutbox | scrapper/internal/infrastructure/persistence/sql/repositories/outbox_repository.go:25-60 | Watermark and rows change together or not at all; a zero time leaves the watermark; an unacknowledged commit still stores both |
| LinkChecking.LinkChecker.SaveOutboxMessages | scrapper/internal/infrastructure/persistence/sql/repositories/outbox_repository.go:62-84 | All rows are appended in one transaction or none |
| LinkChecking.LinkChecker.UpdateLastUpdated | scrapper/internal/infrastructure/persistence/sql/repositories/tracking_repository.go:99-107 | Only the link's own watermark changes; an unknown id changes nothing |
| Watermark.BaselineStep | scrapper/internal/application/services/scheduler.go:260-266 | The first check after an Add writes no rows and sends nothing; it sets a non-zero watermark if its write takes effect |
| Watermark.OutboxStep | scrapper/internal/application/services/scheduler.go:283-334 | A check past the baseline changes nothing, or moves the watermark to the latest date of its page and, with subscribers, stores all new updates with it |
| Watermark.GoodOutboxStep | scrapper/internal/application/services/scheduler.go:255-331 | A check that meets no failure stores exactly its new updates and the latest date |
| Watermark.OutboxRun | scrapper/internal/application/services/scheduler.go:240-337 | Over any run of checks of a link, whatever fails: no post enters the outbox twice, the watermark never decreases, and all rows are dated between the first and the current watermark |
| Watermark.OutboxExact | scrapper/internal/application/services/scheduler.go:255-334 | If every page shows all new posts, late posts are dated after the watermark and there are subscribers, the link's rows are exactly the posts dated in (first watermark, current watermark] |
| Watermark.WrittenExactly | scrapper/internal/application/services/scheduler.go:255-334 | Over any run of checks a post is written iff some check of the run gets as far as storing rows, shows the post, and starts from a watermark before it |
| Watermark.TruncatedPageMisses | scrapper/internal/application/services/scheduler.go:255-334 | A concrete run of two checks in which a truncated first page makes the earlier of two posts miss |
| Watermark.MissedStaysMissed | scrapper/internal/application/services/scheduler.go:268-334 | In particular a post dated at or before the watermark that has no row by then never gets one |
| Watermark.BaselineSwallows | scrapper/internal/application/services/scheduler.go:260-266 | After an Add the next check's baseline silences every post dated at or before it for good |
| Watermark.DirectStep | scrapper/internal/application/services/scheduler.go:272-321 | In direct mode the watermark is stored before anything is sent, and one check hands over a prefix of its new updates |
| Watermark.DirectRun | scrapper/internal/application/services/scheduler.go:268-321 | Without the outbox no post is handed to SendUpdate twice over any run of checks |
| Watermark.DirectLosesExactly | scrapper/internal/application/services/scheduler.go:268-321 | Once a direct check has moved the watermark, update i of its page is handed to SendUpdate, by it or any later check, iff the move was acknowledged, there were subscribers and every send before it worked |
| Publisher.OutboxPublisher.PublishPending | scrapper/internal/application/services/outbox_publisher.go:74-115 | One round over the oldest pending rows has the effect of PublishAll, for every outcome of each produce and mark |
| Publisher.OutboxPublisher.GetPendingMessages | scrapper/internal/infrastructure/persistence/sql/repositories/outbox_repository.go:86-136 | The batch is the oldest pending rows, each once, in created_at order, as many as the limit allows |
| Publisher.OutboxPublisher.MarkAsSent | scrapper/internal/infrastructure/persistence/sql/repositories/outbox_repository.go:138-148 | The row's status becomes SENT if the statement takes effect; no other row changes |
| Publisher.OutboxPublisher.MarkPublishFailed | scrapper/internal/infrastructure/persistence/sql/repositories/outbox_repository.go:150-169 | The row's attempts grow by one and its status stays as it was |
| Publisher.RoundByRow | scrapper/internal/application/services/outbox_publisher.go:81-114 | What a round does to each row: SENT only after an acknowledged produce with a mark that took effect, attempts only after a failed one, nothing outside the batch |
| Publisher.RoundTopic | scrapper/internal/application/services/outbox_publisher.go:82-87 | What a round adds to the topic are rows of its batch whose publish took effect |
| Publisher.RoundPublishesBatch | scrapper/internal/application/services/outbox_publisher.go:81-87 | When every publish takes effect the round appends exactly its batch to the topic, in order |
| Publisher.RoundNeverAddsPending | scrapper/internal/application/services/outbox_publisher.go:74-115 | Whatever fails, a round never makes a row pending and never marks one FAILED; a pending row leaves exactly when its produce was acknowledged and its mark took effect |
| Publisher.RoundKeepsAttempts | scrapper/internal/application/services/outbox_publisher.go:88-105 | A row's stored attempts never exceed its failed publishes, and equal them when every mark takes effect |
| Publisher.DrainBound | scrapper/internal/application/services/outbox_publisher.go:74-115 | k rounds without failures leave exactly max(0, n - k * batchSize) pending rows |
| Publisher.DrainOrder | scrapper/internal/application/services/outbox_publisher.go:74-115 | What those rounds publish is in created_at order, each row once, and no row still pending is older |
| Publisher.BlockedForever | scrapper/internal/application/services/outbox_publisher.go:96-104 | If the oldest batchSize pending rows are always refused and new rows are later, nothing at all is published, over any rounds and insertions |
| Blocking.StuckForever | scrapper/internal/application/services/outbox_publisher.go:74-104 | A row with batchSize refused rows older than it is never published, over any rounds and insertions |
| Blocking.ReachedWithin | scrapper/internal/application/services/outbox_publisher.go:74-114 | A row with fewer than batchSize refused rows as old as it is SENT within one round more than there are pending rows as old, when the other calls work and no row as old is stored |
| Blocking.ReachedExactly | scrapper/internal/infrastructure/persistence/sql/repositories/outbox_repository.go:86-136 | Exactly: after enough rounds the row is SENT iff fewer than batchSize refused rows are older than it |
| Blocking.StuckOutbox | scrapper/internal/application/services/outbox_publisher.go:96-104 | For every batch size an outbox in which a row is stuck |
| Publisher.ReachedInNextRound | scrapper/internal/infrastructure/persistence/sql/repositories/outbox_repository.go:86-136 | One round of it: a pending row with fewer than batchSize pending rows at least as old is in the next batch and becomes SENT when its own calls work |
| Publisher.RoundAppends | scrapper/internal/application/services/outbox_publisher.go:81-87 | A round appends to the topic exactly the rows of its batch whose publish takes effect, in order |
| Consumer.LinkUpdateConsumer.HandleLinkUpdate | bot/internal/application/services/update_service.go:26-40 | One send to each chat in turn, stopping at the first that fails; an invalid update sends nothing |
| Consumer.LinkUpdateConsumer.HandleWithRetries | pkg/kafka/link_update_consumer.go:201-222 | The sends of one message are those of its attempts, and it succeeds exactly when the last attempt reaches the whole list |
| Consumer.AttemptsShape | pkg/kafka/link_update_consumer.go:201-222 | At most maxRetries + 1 attempts, all but the last of them proper prefixes of the chats |
| Consumer.RetriedDeliveryBound | bot/internal/application/services/update_service.go:33-37 | With distinct chats no chat gets a message more than maxRetries + 1 times, and counts never increase along the list |
| Consumer.RetriedDeliveryOutcome | pkg/kafka/link_update_consumer.go:201-222 | On success every chat got it at least once and the last chat exactly once; on failure the last chat got none |
| Consumer.SucceedsExactly | pkg/kafka/link_update_consumer.go:201-222 | The retry loop succeeds iff in some attempt every send works, each attempt before it having met a failing send and a wait that was not cancelled |
| Consumer.HandleExactly | pkg/kafka/link_update_consumer.go:172-243 | What becomes of a record, over what it met alone: handled iff it decodes, has a URL and chats, and such an attempt exists; dead iff not and the dead letter publish takes effect; committed iff handled or its dead letter acknowledged, and the commit takes effect |
| Consumer.HandleDelivers | pkg/kafka/link_update_consumer.go:194-198 | When the sends of the first attempt work, each chat is sent the message once, in the order of the list, the record is handled and nothing enters the dead letter topic |
| Handling.HandleSends | pkg/kafka/link_update_consumer.go:201-222 | With distinct chats a chat is sent the message as often as there are attempts that are made and whose sends work up to that chat |
| Handling.PlacesExactly | pkg/kafka/link_update_consumer.go:172-235 | Over any run: a place is handled iff some poll read it under conditions that let its record be delivered, and in the dead letter topic iff some poll read it under others and its dead letter publish took effect |
| Handling.DeadOnlyIf | pkg/kafka/link_update_consumer.go:182-196 | A place in the dead letter topic was read by a poll whose record does not decode, has no URL or no chats, or met a failing send in each attempt made |
| Handling.OnlyFromTopic | bot/internal/application/services/update_service.go:26-40 | Whatever was sent over a run is a record of the topic with a URL, sent to a chat it names |
| Consumer.LinkUpdateConsumer.HandleMessage | pkg/kafka/link_update_consumer.go:172-199 | A record that is deliverable under what it meets is handled, and no other is; any other is in the dead letter topic iff that publish took effect; ok iff it was settled and committed; when the first attempt meets no failing send each chat gets the message once, in turn |
| Consumer.LinkUpdateConsumer.SendToDLQAndCommit | pkg/kafka/link_update_consumer.go:224-235 | Nothing is committed unless the dead letter publish was acknowledged |
| Consumer.LinkUpdateConsumer.CommitMessage | pkg/kafka/link_update_consumer.go:237-243 | A commit stores the next offset of the record's own partition |
| Consumer.HandleOne | pkg/kafka/link_update_consumer.go:172-199 | Handling one record settles that record or stops the consumer; it touches no other offset |
| Consumer.LinkUpdateConsumer.Start | pkg/kafka/link_update_consumer.go:142-170 | The poll loop has the effect of its polls one after another, none after the one at which the consumer stopped, and keeps the invariant |
| Consumer.StopsAtTheUnsettled | pkg/kafka/link_update_consumer.go:157-167 | A session goes on after a record whose handling reports no error and is over, with what that handling left, at the first one that could not be settled |
| Consumer.SessionIsRun | pkg/kafka/link_update_consumer.go:142-170 | A session is a run of consumer steps |
| Consumer.CommittedPrefix | pkg/kafka/link_update_consumer.go:142-251 | Over any polls, failures and restarts every offset below a committed one was handled with a nil error, with all its chats reached, or is in the dead letter topic; the handler sees valid records only |
| Pipeline.NoSilentLoss | scrapper/internal/application/services/scheduler.go:240-337 | In every reachable state each notification the watermark has passed is a pending row, or in the topic at or beyond the committed offset, or in the dead letter topic, or handled with every chat reached |
| Pipeline.StepKeeps | scrapper/internal/application/services/outbox_publisher.go:81-114 | The invariant behind it, kept by every effect of every process and by every crash: rows before watermark, topic before SENT, settled before committed |
| Pipeline.CheckStores | scrapper/internal/infrastructure/persistence/sql/repositories/outbox_repository.go:25-60 | Whatever a check passes it stores as rows with the watermark |
| Pipeline.CheckOwes | scrapper/internal/application/services/scheduler.go:283-331 | A check whose calls work owes each later post of its page to exactly the subscribers it found |
| Pipeline.DrainedMeansDelivered | pkg/kafka/link_update_consumer.go:172-199 | With no pending row and everything committed, each owed notification reached all its chats or is in the dead letter topic |
| Pipeline.RoundIsRun | scrapper/internal/application/services/outbox_publisher.go:74-115 | A round of PublishPending leaves what the produce and mark steps of its batch leave, so every crash point inside it is a state of some run; it appends to the partition logs the messages of the rows whose produce took effect, as the publisher counts them |
| Delivering.EverythingOwedIsDelivered | scrapper/internal/application/services/outbox_publisher.go:74-115 | From any reachable state, after enough working rounds for the rows pending, a restart and a poll for each uncommitted record with working commits and dead letters, everything owed has reached all its chats or is in the dead letter topic |
| Delivering.EverythingOwedIsReceived | pkg/kafka/link_update_consumer.go:172-222 | When moreover each poll has an attempt without a failing send, every chat of what is owed has received it: the dead letter topic is no way out |
| Delivering.RoundsDrain | scrapper/internal/application/services/outbox_publisher.go:74-115 | k working rounds of the pipeline leave max(0, n - k * batchSize) rows pending |
| Delivering.PollsAdvance | pkg/kafka/link_update_consumer.go:142-243 | Each poll with a working dead letter publish and commit commits one more record of its partition, whatever the sends do |
| StoreRefinement.StepRefines | migrations/scrapper/000001_init.up.sql:1-40 | Every operation on the five tables, cascades and upserts included, keeps keys and references valid and does on the nested map (chat to tag names and url to tag set) what the matching map operation does, with the same reply |
| StoreRefinement.RunRefines | migrations/scrapper/000001_init.up.sql:1-40 | The same for every run of operations from valid tables, reply by reply |
| StoreRefinement.AddLinkRefines | scrapper/internal/infrastructure/persistence/sql/repositories/link_repository.go:27-82 | Add gives the chat the URL with the union of old and new tags and changes no other chat |
| StoreRefinement.RemoveLinkRefines | scrapper/internal/infrastructure/persistence/sql/repositories/link_repository.go:84-104 | Remove drops the chat's URL or answers that it is not there |
| StoreRefinement.RemoveByTagRefines | scrapper/internal/infrastructure/persistence/sql/repositories/link_repository.go:252-274 | RemoveByTag drops exactly the chat's URLs with the tag and returns their number |
| StoreRefinement.DropChatRefines | scrapper/internal/infrastructure/persistence/sql/repositories/chat_repository.go:31-48 | Removing a chat cascades to everything the chat owns and nothing else |
| StoreRefinement.RegisterChatRefines | scrapper/internal/infrastructure/persistence/sql/repositories/chat_repository.go:21-29 | Adding a chat twice changes nothing the second time |
| StoreRefinement.CreateTagRefines | scrapper/internal/infrastructure/persistence/sql/repositories/tag_repository.go:27-41 | A new tag name is added; a name the chat has, or a missing chat, is refused |
| StoreRefinement.RenameTagRefines | scrapper/internal/infrastructure/persistence/sql/repositories/tag_repository.go:75-99 | Rename replaces the name in the chat's tags and in each URL's tags; a missing or a taken name is refused |
| StoreRefinement.DeleteTagRefines | scrapper/internal/infrastructure/persistence/sql/repositories/tag_repository.go:101-120 | Delete removes the name from the chat's tags and from each URL's tags |
| StoreRefinement.OtherChatsUntouched | migrations/scrapper/000001_init.up.sql:11-40 | A run that does not name a chat leaves its URLs and tags as they were |
| StoreRefinement.AddUnionsTags | scrapper/internal/infrastructure/persistence/sql/repositories/link_repository.go:27-82 | Two Adds of a URL give the union of their tags and of those it had |
| StoreRefinement.RemoveForgetsTags | scrapper/internal/infrastructure/persistence/sql/repositories/link_repository.go:84-104 | Remove and then Add brings no old tag back |
| StoreRefinement.AddOverwritesWatermark | scrapper/internal/infrastructure/persistence/sql/repositories/link_repository.go:38-47 | Add of a tracked URL keeps the link's id and overwrites the watermark all its subscribers share |
| StoreEffects.AddLinkExactly | scrapper/internal/infrastructure/persistence/sql/repositories/link_repository.go:27-82 | In rows, for any URL and name: after Add the chat tracks the URL besides what it tracked, has the names besides its tags, and the URL carries the names besides what it carried; a missing chat is refused |
| StoreEffects.RemoveLinkExactly | scrapper/internal/infrastructure/persistence/sql/repositories/link_repository.go:84-104 | After Remove the chat tracks all but that URL; the reply says whether it was tracked |
| StoreEffects.RemoveByTagExactly | scrapper/internal/infrastructure/persistence/sql/repositories/link_repository.go:252-274 | After RemoveByTag the chat tracks what did not carry the tag; the reply is the number of URLs that did |
| StoreEffects.DeleteChatExactly | scrapper/internal/infrastructure/persistence/sql/repositories/chat_repository.go:31-48 | After the delete the chat is gone with all it tracked, its tags and what carried them |
| StoreEffects.RegisterChatExactly | scrapper/internal/infrastructure/persistence/sql/repositories/chat_repository.go:21-29 | A new chat is there with nothing; one that was there is as it was |
| StoreEffects.CreateTagExactly | scrapper/internal/infrastructure/persistence/sql/repositories/tag_repository.go:27-41 | The chat has the tag besides those it had; no URL carries anything else; the reply tells a missing chat and a taken name |
| StoreEffects.RenameTagExactly | scrapper/internal/infrastructure/persistence/sql/repositories/tag_repository.go:75-99 | The new name takes the place of the old one among the tags and on every URL; the reply tells a missing and a taken name |
| StoreEffects.DeleteTagExactly | scrapper/internal/infrastructure/persistence/sql/repositories/tag_repository.go:101-120 | The tag is gone from the chat and from every URL, and nothing else is |
| StoreEffects.OthersUnchanged | migrations/scrapper/000001_init.up.sql:11-40 | Every other chat tracks, has and carries what it did |
| SqlRepositories.Database.Add | scrapper/internal/infrastructure/persistence/sql/repositories/link_repository.go:27-82 | The transaction of upserts commits all its rows or none, whichever statement fails, and equals the operation AddLink on the tables |
| SqlRepositories.Database.Remove | scrapper/internal/infrastructure/persistence/sql/repositories/link_repository.go:84-104 | The statement equals RemoveLink on the tables, with its not-found error |
| SqlRepositories.Database.RemoveTagged | scrapper/internal/infrastructure/persistence/sql/repositories/link_repository.go:252-274 | The joined delete equals RemoveByTag on the tables, with the count of rows |
| SqlRepositories.Database.List | scrapper/internal/infrastructure/persistence/sql/repositories/link_repository.go:106-159 | The list shows each URL of the chat once, with its tags each once and its watermark |
| SqlRepositories.Database.ListByTag | scrapper/internal/infrastructure/persistence/sql/repositories/link_repository.go:161-216 | The same for exactly the URLs that carry the tag |
| SqlRepositories.Database.GetTagsByLinkIDs | scrapper/internal/infrastructure/persistence/sql/repositories/link_repository.go:218-250 | Each requested link gets the names of the chat's tags on it, each once |
| SqlRepositories.Database.AddChat | scrapper/internal/infrastructure/persistence/sql/repositories/chat_repository.go:21-29 | The insert equals RegisterChat on the tables |
| SqlRepositories.Database.RemoveChat | scrapper/internal/infrastructure/persistence/sql/repositories/chat_repository.go:31-48 | The delete equals DeleteChat on the tables, cascades included, with its not-found error |
| SqlRepositories.Database.CreateTagNamed | scrapper/internal/infrastructure/persistence/sql/repositories/tag_repository.go:27-41 | The insert equals CreateTag on the tables, with both of its errors |
| SqlRepositories.Database.RenameTagNamed | scrapper/internal/infrastructure/persistence/sql/repositories/tag_repository.go:75-99 | The update equals RenameTag on the tables, with both of its errors |
| SqlRepositories.Database.DeleteTagNamed | scrapper/internal/infrastructure/persistence/sql/repositories/tag_repository.go:101-120 | The delete equals DeleteTag on the tables, with its not-found error |
| SqlRepositories.Database.FindSubscribers | scrapper/internal/infrastructure/persistence/sql/repositories/tracking_repository.go:25-56 | The chats subscribed to the link, each once |
| SqlRepositories.Database.GetTrackedLinksBatch | scrapper/internal/infrastructure/persistence/sql/repositories/tracking_repository.go:58-97 | The page that LIMIT and OFFSET cut out of the subscribed links in id order, each row with the id, the URL and the last_updated of the link's row of the table |
| SqlRepositories.Database.SetLastUpdated | scrapper/internal/infrastructure/persistence/sql/repositories/tracking_repository.go:99-107 | Only the watermark of that row changes |
| ListCaching.ListsAgreeWithStore | scrapper/internal/application/services/link_service.go:46-156 | Over any run of link and chat operations with expiry and failing Gets and Sets, ListLinks answers the URLs and tags, or the chat-not-found error, of a service without a cache |
| ListCaching.StaleExactly | scrapper/internal/application/services/link_service.go:46-156 | A link operation or DeleteChat leaves the cache stale iff the chat has a decodable entry, the operation changes its list, and the repository changes it without acknowledging or the cache refuses the Delete |
| ListCaching.CoherentExactly | scrapper/internal/application/services/link_service.go:150-156 | For every step: the cache stays true iff the chat it wrote to has no decodable entry left or still has the same list |
| ListCaching.HarmlessKeepsCoherent | scrapper/internal/application/services/chat_service.go:30-41 | Deletes that go through, and repository calls that do not fail after taking effect, keep the cache true |
| ListCaching.UnacknowledgedAddGoesStale | scrapper/internal/application/services/link_service.go:57-65 | An Add that commits but reports an error skips the invalidation: a concrete state in which the next list is wrong |
| ListCaching.ServiceReplies | scrapper/internal/application/services/link_service.go:46-144 | The replies when the calls work: a missing chat is told so; Remove tells whether the chat tracked the URL, RemoveByTag how many of its URLs carried the tag |
| ListCaching.ServiceFails | scrapper/internal/application/services/link_service.go:46-144 | A call that fails is answered with an error and leaves the tables as they were, or as the operation leaves them if it took effect without being acknowledged |
| ListCaching.LinkService.Add | scrapper/internal/application/services/link_service.go:46-66 | AddLink serves the request as specified, cache deletion included |
| ListCaching.LinkService.Remove | scrapper/internal/application/services/link_service.go:68-88 | RemoveLink serves the request as specified, cache deletion included |
| ListCaching.LinkService.RemoveTagged | scrapper/internal/application/services/link_service.go:125-144 | RemoveLinksByTag invalidates only when something was removed |
| ListCaching.LinkService.List | scrapper/internal/application/services/link_service.go:90-123 | ListLinks answers from a decodable entry, or reads the store and fills the cache |
| ListCaching.ChatService.Register | scrapper/internal/application/services/chat_service.go:26-28 | RegisterChat serves the request as specified and leaves the cache alone |
| ListCaching.ChatService.Delete | scrapper/internal/application/services/chat_service.go:30-41 | DeleteChat deletes the chat's cache entry after the chat is gone |
| Chunking.Chunks | scrapper/internal/application/services/scheduler.go:142-172 | The chunks cover the batch without gap or overlap, none is empty, and there are at most workerCount of them |
| Chunking.InOneChunk | scrapper/internal/application/services/scheduler.go:163-173 | Each index of the batch is in exactly one chunk |
| Effects.ProgramIsCheck | scrapper/internal/application/services/scheduler.go:240-337 | A check is its list of effects: they depend on the link and on what the check meets, not on what other workers do |
| Interleaving.InTurnStep | scrapper/internal/application/services/scheduler.go:175-191 | An effect of any job, whatever the other jobs have done, is as if it had come in its job's turn, when effects of different jobs commute |
| Interleaving.ScheduleIrrelevant | scrapper/internal/application/services/scheduler.go:162-197 | For jobs whose effects commute, every schedule that lets all workers finish leaves, up to the order of what is appended, what the jobs leave one after another; the ends of failed jobs may wait until then |
| Interleaving.WorkersFinish | scrapper/internal/application/services/scheduler.go:162-194 | While some worker is not done, a step of it brings the end nearer, so the wait ends |
| Pool.EffectsCommute | scrapper/internal/application/services/scheduler.go:388-406 | Effects of checks of two links, ends of checks included, give the same marks, table, and multisets of rows, sends and reports either way round |
| Pool.SchedulesDoNotMatter | scrapper/internal/application/services/scheduler.go:137-198 | Every interleaving of the workers, over any chunks, ends with the watermarks and failure table of one sequential pass and the same multisets of outbox rows, sends and failure reports |
| Passes.PassMarks | scrapper/internal/application/services/scheduler.go:137-198 | In a pass over a batch each link's watermark moves iff its own check stores one, and to the date it should |
| Passes.PassEntries | scrapper/internal/application/services/scheduler.go:178-238 | Each link's entry in the failure table goes iff its check reports no error; else it holds the preview iff it did or the report was delivered or found nobody |
| Passes.PassReports | scrapper/internal/application/services/scheduler.go:200-238 | A link whose check fails is reported to the subscribers found, unless its entry holds the preview |
| Passes.PassNotifies | scrapper/internal/application/services/scheduler.go:283-331 | Each later post of each link is stored as a pending row, or handed over when the sends work, for exactly the subscribers its check found |
| BatchProcessing.BatchProcessor.ProcessBatch | scrapper/internal/application/services/scheduler.go:137-198 | The chunks one after another and then the report loop, on the links table and the outbox, end as one sequential pass over the batch does |
| BatchProcessing.FailureTable.ReportLinkFailure | scrapper/internal/application/services/scheduler.go:200-238 | The table and the report after a failure, for every branch: repeated, lookup failed, no subscribers, sent, send failed |
| BatchProcessing.FailureTable.ShouldReportFailure | scrapper/internal/application/services/scheduler.go:388-399 | A failure is reported unless the table holds the same preview, and then the table holds it |
| BatchProcessing.FailureTable.ClearReportedFailure | scrapper/internal/application/services/scheduler.go:401-406 | Only the link's own entry goes |
| FailureReports.EntryExactly | scrapper/internal/application/services/scheduler.go:178-238 | Over any trace of checks of any links, the entry of a link depends on its own outcomes only |
| FailureReports.OnlyRepeatsDropped | scrapper/internal/application/services/scheduler.go:200-238 | With subscribers and working sends, the reports of a link are its failures not directly preceded by one with the same preview |
| FailureReports.EntryClosedForm | scrapper/internal/application/services/scheduler.go:203-237 | The entry is p iff the trailing failures of the link with preview p hold one whose report was delivered or found no subscribers |
| FailureReports.ReportedExactly | scrapper/internal/application/services/scheduler.go:200-238 | After any trace a failure of a link with subscribers is reported iff its trailing failures with the same preview hold no such one |
| Scheduling.Scheduler.CheckLinks | scrapper/internal/application/services/scheduler.go:108-135 | The run ends and is the run of pages: every page read is checked as a batch, whatever other requests do between the reads. Without other requests the links checked are rows of the table the run found, in id order, each once with its URL and watermark, all of them unless a read fails, and each is left as its own check says: mark, rows or sends, failure entry and report |
| Scheduling.PageShowsTables | scrapper/internal/infrastructure/persistence/sql/repositories/tracking_repository.go:58-97 | Every page of a run shows the rows of the tables it is read from, whatever other requests have changed before |
| RunOutcomes.FirstLinksOutcome | scrapper/internal/application/services/scheduler.go:108-238 | What an undisturbed run leaves of each link it checked, up to the order of rows, sends and reports: its watermark, its later posts stored or handed over, its failure entry and its report |
| Paging.AscendingUnique | scrapper/internal/infrastructure/persistence/sql/repositories/tracking_repository.go:58-65 | The id order of the query is the only ascending listing, so all pages are cut from one list |
| Paging.PageContinuesExactly | scrapper/internal/application/services/scheduler.go:118-132 | The page at the offset continues right after the last link checked iff the offset, cut off at the end, is the number of subscribed links not above it |
| Paging.PageSkips | scrapper/internal/application/services/scheduler.go:118-132 | When links before were unsubscribed, the links in between are on this and on no later page of the listing |
| Paging.PageRepeats | scrapper/internal/application/services/scheduler.go:118-132 | When links before were subscribed, the page goes back, and checks the last link again if it is still subscribed and the page reaches it |
| SchedulerRuns.CompleteRunIsOnePass | scrapper/internal/application/services/scheduler.go:108-135 | Without other requests a complete run is one sequential pass over all subscribed links, whatever the batch size |
| SchedulerRuns.EveryRunIsOnePass | scrapper/internal/application/services/scheduler.go:108-198 | The same for every worker count and every schedule of the workers in each batch, up to the order of rows, sends and reports |
| SchedulerRuns.SchedulesOfRunDoNotMatter | scrapper/internal/application/services/scheduler.go:108-198 | Whatever other requests do between the pages, a run with any schedules ends as the run with sequential batches |
| SchedulerRuns.RunChecksEveryLink | scrapper/internal/application/services/scheduler.go:108-135 | A complete run whose reads all continue right after the last link checks every link subscribed throughout, exactly once, although others come and go |
| SchedulerRuns.ChangesAheadAreHarmless | scrapper/internal/application/services/scheduler.go:118-132 | A read continues right after the last link when nothing up to that link was subscribed or unsubscribed since the read before |
| Grouping.GroupingConserves | agent/internal/application/grouping_service.go:42-133 | In every interleaving, for each chat the updates of its Add events, each addressed to that chat alone, are those buffered, those taken for sending and those the calls of the producer carried, each once |
| Grouping.RunMatches | agent/internal/application/grouping_service.go:120-132 | No group is handed to the producer twice, and the calls carry exactly the groups handed over |
| Grouping.RunConserves | agent/internal/application/grouping_service.go:55-133 | And in order: what was taken and then what is buffered is the updates of the Add events for the chat, each addressed to it alone |
| Grouping.AddBuffers | agent/internal/application/grouping_service.go:55-84 | An Add puts the update, addressed to the chat alone, at the end of that chat's buffer and touches no other |
| Grouping.RunTimers | agent/internal/application/grouping_service.go:65-75 | In every reachable state a buffered chat has an armed timer or a callback still to run, stale callbacks included |
| Grouping.FlushAllCovers | agent/internal/application/grouping_service.go:86-99 | A FlushAll interleaved with anything but Adds leaves nothing buffered |
| Grouping.GroupingService.AddUpdate | agent/internal/application/grouping_service.go:42-53 | Without a window the update goes straight to the producer; with one each chat's buffer gains, at its end, one copy addressed to that chat alone for each time the update names the chat |
| Grouping.GroupingService.AddForChat | agent/internal/application/grouping_service.go:55-84 | The update, addressed to the one chat, is appended to its buffer, which gets a timer when it is new; the buffers of the other chats are as they were |
| Grouping.GroupingService.FlushChat | agent/internal/application/grouping_service.go:101-133 | The buffer is taken, its timer stopped, and one group produced of what it held |
| Grouping.GroupingService.FlushAll | agent/internal/application/grouping_service.go:86-99 | Every buffer is taken and the one group of its updates produced; nothing stays buffered, and conservation is kept |
| Grouping.BuildGroupedUpdate | agent/internal/application/grouping_service.go:135-146 | A single update is sent as it is; several become the first one with all descriptions and the highest priority |
| Grouping.EveryEntryIsThere | agent/internal/application/grouping_service.go:148-160 | Each update's numbered description is in the text, after those of the updates before it |
| Grouping.MaxPriority | agent/internal/application/grouping_service.go:162-174 | The result is LOW or a priority of one of the updates, none ranks higher, and an unknown priority never wins |
| Grouping.MaxPriorityUnique | agent/internal/application/grouping_service.go:176-187 | No other result would do: known priorities have different ranks |
| Grouping.MaxPriorityExactly | agent/internal/application/grouping_service.go:162-187 | It is HIGH if some update is, else MEDIUM if some update is, else LOW |
| Grouping.DigitsExactly | agent/internal/application/grouping_service.go:156-156 | The number of an entry is written in decimal digits worth that number, with no leading zero |
| Grouping.GroupIsGroupOf | agent/internal/application/grouping_service.go:135-146 | The properties of a group determine it |
| RateLimiting.EvictionInvisible | pkg/helpers/rate_limiter.go:76-110 | With enough ttl every decision of Allow is that of a token bucket per IP that is never forgotten |
| RateLimiting.InvisibleIffEnough | pkg/helpers/rate_limiter.go:98-110 | Exactly then: for any other settings some requests in order are decided differently |
| RateLimiting.DrainedAndLate | pkg/helpers/rate_limiter.go:90-95 | With a late second reading of the clock rate * ttl >= burst is not enough: requests that are decided differently |
| RateLimiting.EnoughWithoutLag | pkg/helpers/rate_limiter.go:76-95 | When the clock is read once per request the condition is rate * ttl >= burst |
| RateLimiting.WindowBound | pkg/helpers/rate_limiter.go:76-96 | In any window of requests an IP is admitted at most burst + rate * T times |
| Admission.AdmittedExactly | pkg/helpers/rate_limiter.go:76-96 | A request is admitted iff for each admitted request of its IP before it the requests admitted since then, this one included, are at most burst and the tokens that came in |
| RateLimiting.IPRateLimiter.AllowRequest | pkg/helpers/rate_limiter.go:76-96 | Allow in seconds has the effect and the answer of the specification in tokens |
| RateLimiting.IPRateLimiter.CleanupExpired | pkg/helpers/rate_limiter.go:98-110 | The cleanup is due after the interval and deletes exactly the visitors idle for more than the ttl |
| RateLimiting.Normalize | pkg/helpers/rate_limiter.go:56-74 | The settings that come out are usable, usable ones come out unchanged, and unusable ones as 10 a second, burst 20, a minute and five minutes |
| Breaking.HalfOpenVerdict | pkg/helpers/circuit_breaker.go:81-103 | A half-open episode takes exactly N calls; the N-th closes the breaker iff 100 * failures <= threshold * N and reopens it otherwise, with all counters zero again |
| Breaking.Probing | pkg/helpers/circuit_breaker.go:91-98 | The first N - 1 verdicts are success whatever happened, and the counters count the calls and failures of this episode only |
| Breaking.RunKeeps | pkg/helpers/circuit_breaker.go:73-79 | In every reachable state the half-open counters agree with the library's counts, and are zero outside half-open |
| Breaking.AtTheThreshold | pkg/helpers/circuit_breaker.go:63-71 | At exactly the threshold the counts that trip a closed breaker close a half-open one |
| Breaking.TripsExactly | pkg/helpers/circuit_breaker.go:63-71 | A new breaker whose window drops nothing opens at the first failing call at which there are minimumRequests calls and 100 * failures >= threshold * calls; until then it is closed and answers each call as it went |
| Breaking.TripsOn | pkg/helpers/circuit_breaker.go:63-71 | The same for one failing call on any closed breaker, over what the window still holds |
| Breaking.RejectsWhileOpen | pkg/helpers/circuit_breaker.go:109-122 | An open breaker rejects every call until its wait is over and does not change |
| Breaking.CircuitBreaker.ExecuteCall | pkg/helpers/circuit_breaker.go:109-122 | One call through the closures has the effect of the specification; on a closed breaker a failing call opens it iff calls and failures reach the minimum and the threshold, and a working one never does; an open one rejects it until its wait is over |
| Breaking.CircuitBreaker.IsSuccessful | pkg/helpers/circuit_breaker.go:81-103 | The verdict and the counters after it |
| Breaking.CircuitBreaker.OnStateChange | pkg/helpers/circuit_breaker.go:73-79 | The closures' state follows, and the counters are zero on the way into and out of half-open |
| Breaking.Normalize | pkg/helpers/circuit_breaker.go:124-150 | The settings that come out are usable, usable ones come out unchanged, and unusable ones as 50 percent, 2 calls and 1 probe |
| AvroCodec.RoundTrip | pkg/avrocodec/link_update_codec.go:65-175 | Deserialize after Serialize gives the update back, whatever bytes follow, for every update whose time has a text that parses back |
| AvroCodec.TruncatedIsRefused | pkg/avrocodec/link_update_codec.go:92-104 | A serialized update that is cut short anywhere is refused, as too short or as malformed |
| AvroCodec.FieldErrorsNeverHappen | pkg/avrocodec/link_update_codec.go:111-175 | Whatever the payload, Deserialize refuses it for its frame, its encoding or its time only: no field getter fails on a record of this schema |
| AvroCodec.RecordRoundTrip | pkg/avrocodec/link_update_codec.go:18-34 | Every record that fits its schema is read back field by field |
| AvroCodec.FieldRoundTrip | pkg/avrocodec/link_update_codec.go:23-32 | The same for a long, a string, an array of longs and a nullable string |
| AvroCodec.VarintRoundTrip | pkg/avrocodec/link_update_codec.go:79-79 | Variable-length numbers of any size are read back, whatever follows |
| AvroCodec.ArrRoundTrip | pkg/avrocodec/link_update_codec.go:177-184 | Array blocks, the empty array included, are read back |
| AvroCodec.Header | pkg/avrocodec/link_update_codec.go:84-86 | The message starts with a zero byte and the schema id modulo 2^32, highest byte first |
| AvroWire.MessageBytes | pkg/avrocodec/link_update_codec.go:65-90 | The bytes of a message: a zero byte, the schema id, then id, url, chats, type, title, username, time, preview, description and priority, in this order |
| AvroWire.VarintExactly | pkg/avrocodec/link_update_codec.go:79-79 | The bytes of a number are the one shortest seven-bit encoding that has its value |
| AvroWire.ZigZagExactly | pkg/avrocodec/link_update_codec.go:79-79 | The sign of a long goes to the lowest bit, the magnitude above it |
| AvroWire.LongExamples | pkg/avrocodec/link_update_codec.go:79-79 | The example longs of the Avro specification |
| AvroWire.StringAndArrayExamples | pkg/avrocodec/link_update_codec.go:79-79 | Its example string and array |
| AvroWire.SizedBlock | pkg/avrocodec/link_update_codec.go:101-101 | An array block with a negative count and its size is read as one with a positive count |
| AvroWire.FrameRefused | pkg/avrocodec/link_update_codec.go:92-104 | A payload shorter than the header, with another first byte, or with a malformed body is refused as such, in this order |
| AvroCodec.LinkUpdateCodec.Serialize | pkg/avrocodec/link_update_codec.go:65-90 | The buffer is filled with the header and the encoded record |
| AvroCodec.LinkUpdateCodec.Int64SliceToNative | pkg/avrocodec/link_update_codec.go:177-184 | The list as native longs, in order |
| AvroCodec.LinkUpdateCodec.GetInt64SliceField | pkg/avrocodec/link_update_codec.go:210-237 | The field's longs in order, or its error: missing, not an array, an item that is not a long |

## Left out

- BatchProcessing.BatchProcessor.ProcessBatch: this program runs the chunks one after another; all interleavings of the workers are covered by `Pool.SchedulesDoNotMatter` and `SchedulerRuns.EveryRunIsOnePass`, where a step is one effect of one check.
- Scheduling.Scheduler.CheckLinks: assumes a bound on the number of links subscribed at any time; without one the loop of the source need not end either.
- Blocking.ReachedExactly: no refused row has the row's own created_at, because among equal dates the database may choose; with ties `StuckForever` counts the rows strictly older and `ReachedWithin` those at least as old.
- Verdicts.MarkExactly: for watermarks from the zero time on, as all times of the model are; from a watermark before it, a latest date of exactly the zero time would not be stored by the outbox write.
- JSON encoding, URL parsing, previews, HTML clean-up and description texts: opaque values; that an update may fail to encode is kept.
- The schema registry, the Avro library's own limits and its handling of other schemas: only the binary encoding of this schema is modelled.
- RFC 3339 formatting and parsing: a pair of functions of which the round trip is assumed, time by time, in `AvroCodec.RoundTrip`.
- Floating-point rounding in rates and percentages: reals are used.
- Row ids: outbox rows are identified by their positions, so sequence gaps left by rolled-back inserts do not appear there; the sequences of `links` and `tags` are modelled, without the gaps of rolled-back transactions.
- SQL ORDER BY on equal `created_at`: left open; every claim holds for any choice among equals.
- Database timestamp precision and time zones: times are whole numbers.
- The ORM repositories: they are meant as the same table operations as the SQL ones.
- The library's sliding window of the closed circuit breaker: the counts a window still holds are a parameter of each call.
- Panics inside a call of the circuit breaker, and calls that overlap in the half-open state.
- Requests to the rate limiter that overlap: a second request between the two clock readings of a first one.
- Races between concurrent requests on the list cache, and the client-side cache of the Valkey client.
- Two concurrent FlushAll or callbacks producing out of order: the model lets every order happen and claims none between groups.
- The agent as a delivery step: it commits after buffering in memory, so nothing end to end is claimed through it.
- Agent filters, processors, summaries and keyword priorities; bot commands and dialogues: short functions on single values.
- HTTP, gRPC, Telegram, configuration, metrics, logging and generated code.
- The chat buffers as shared objects: the map of buffers holds values, since each is reached through the map only.
