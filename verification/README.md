# Verified model of the NFe.io adapter

The adapter in this repository turns capability calls of an orchestration core into requests to the
NFe.io REST API, and turns NFe.io callbacks into queue messages. This project models the parts of it
that hold protocol state or promise something about whole runs, and proves those promises in Dafny:

* **Exact-id webhook reconciliation** (`Webhooks.dfy`, `Calls.dfy`, `WebhookClient.dfy`): the
  GET, decide, PUT, confirming GET protocol, its ordinary and its security-migration path, observe and
  destroy. `Calls` is a machine that advances one provider attempt at a time; the imperative methods in
  `WebhookClient` are proved equal to it. `Interleaving.dfy` runs any number of such calls against one
  provider under every schedule; `Convergence.dfy` repeats a call after a success.
* **The retry loop** (`Wire.dfy`) under every call. A provider is a function from its state and a request
  to its next state and to what the attempt meets, so "for every provider and every state" covers
  every sequence of replies, lost requests, lost replies and interrupted waits. `Provider.dfy` adds an honest webhook
  store whose requests can be lost before or after they take effect, and whose failing attempts can come back with any
  error code and any body.
* **Issuing and bulk issuing** (`Issuing.dfy`, `Bulk.dfy`, `BulkOutcomes.dfy`): one invoice with its 409 path, and the
  fan-out of at most five concurrent calls as a step system under every schedule, with a provider that
  keeps one invoice per company and external id.
* **The inbound reactor** (`Signature.dfy`, `Reactor.dfy`): callback authentication, the bounded dedup
  cache, routing and publishing.
* **The municipalities cache** (`Queries.dfy`, `Municipalities.dfy`), **request paths** (`Paths.dfy`), **envelope
  rewrites** (`Envelope.dfy`), **invoice cancellation** (`Cancelling.dfy`) and **the describe-contract
  lint** (`Contractcheck.dfy`).

Code that updates state in the source is a method here, with classes for the client, the dedup cache,
the webhook server and the municipalities cache. Loops over Go maps take their next key by an arbitrary choice, so
what is proved of them holds for every iteration order. `dafny verify dfyconfig.toml` checks everything.

## Where the code and its comments differ

The model follows the code.

* `client.go:96-98` says a 5xx is retried once. The loop makes up to three attempts for every transient
  outcome (`Wire.AttemptCount`).
* `client.go:69-71` says a terminal status is not retried. An integer `status` in an error body overwrites
  the HTTP code in the error (`client.go:187-188`) but not in the retry decision (`client.go:194-201`), so
  a 429 or 5xx whose body says 400, 404, 409 or 422 is retried although the error is terminal
  (`Wire.TerminalIsRetriedIff`; `Wire.TerminalIsRetried` shows one). For the same reason a destroy that only ever
  meets 503 replies reports "already absent" exactly when their body says 404 (`Calls.ErrorReadsAsGoneIff`), and an
  issue that only ever meets 503 replies reports an issued duplicate, under whatever id their body carries, exactly
  when that body says 409
  (`FalseSuccesses.ErrorReadsAsIssuedIff`, `FalseSuccesses.ServerErrorReadsAsIssued`). The theorems about
  honest providers allow such replies and name the ids and keys they mislead (`Interleaving.ReportsStayTrue`,
  `BulkOutcomes.ExactlyOnce`).
* The client ignores a failed read of a reply body and takes an empty 2xx body for success (`client.go:176-180`). So a
  201 of which nothing was read ends in an issued invoice without an id, although the invoice exists
  (`FalseSuccesses.UnreadReplyReadsAsIssued`; `FalseSuccesses.CutReplyIssuesIff` says exactly when), and a 200 of which
  nothing was read makes an empty listing that replaces a good cached one and is served until it expires
  (`Municipalities.EmptyListingIsServed`; `Wire.CutReadIff` and `Municipalities.OneReadIff` say exactly when).
  `BulkOutcomes.ExactlyOnce` and `Municipalities.EveryRun` name the keys and queries this happened to. Webhook calls are
  not misled: a document that was not read whole leads to a refusal (`WebhookStore.CroppedResume`).
* Company and invoice ids are escaped, and "." and ".." escape to themselves. Against a server that removes dot segments
  a path still names its endpoint and ids if and only if no id is one of these two (`Paths.DotlessRoundTripIff`);
  issuing under company "." then posts to company "serviceinvoices" (`Paths.DotCompanyAddressesAnother`). Webhook ids
  refuse both (`Webhooks.ValidIdSurvivesDots`).
* The cap of 500 municipalities per page holds of the page size the adapter computes, not of every request: the state
  code is put into the query string unescaped (`list_municipalities.go:92-94`). A request stays within the cap exactly
  when no parameter that its state adds is a larger page size (`Queries.BoundedIff`); `SP&pageSize=9999` is a state that
  breaks it (`Queries.StateAddsPageSize`). Two states that differ only from a `#` on have two cache entries and one
  request (`Queries.KeyIdentifiesRequest`).
* A Retry-After of n seconds is honoured up to n = 9223372036; beyond it the int64 product of nanoseconds
  wraps around (`Wire.RetryAfterSeconds`).
* "No Authorization header" is not stable under concurrent calls: an ordinary ensure that read the object
  before a migration wrote it puts the header back (`Migration.OrdinaryWriteRestoresAuthorization`).
  `Migration.CleanIsStableIff` gives the exact condition.
* The dedup key is stored before publishing, so each admitted delivery is published at most once, also
  when the publisher fails (`Reactor.WebhookServer.Handle`). Lookup and insertion are two operations, so overlapping
  deliveries of one key can both be published; a delivery is published exactly when it is routed, reaches its
  insertion, and its key was not recent at its lookup (`Reactor.PublishedIff`).
* JSON `null` in `insecureSsl` reads as `false` (`Webhooks.InsecureSsl`), because unmarshalling null into a bool is a no-op.

## Model

| member | source | states |
|---|---|---|
| Wire.Client.Do | providers/nfeio/adapter/client.go:115-141 | the attempt loop leaves exactly the state, exchanges, result, error count and total wait of the recursive specification `Perform` |
| Wire.RetryMeetsSpec | providers/nfeio/adapter/client.go:115-141 | for every provider: one to three attempts of the same request, all but the last without a reply or with code 429 or 5xx, the result is the meaning of the last reply, failures and pauses are summed, and "unreachable" is never returned |
| Wire.AttemptMeans | providers/nfeio/adapter/client.go:115-139 | every attempt, for every reply: it is tried again exactly when it had no reply or code 429 or 5xx, attempts are left and the context outlives the pause; otherwise the result is the body, a decode error, the network or context error, or the API error with its effective status and its name |
| Wire.PauseIs | providers/nfeio/adapter/client.go:161-217 | one second after no reply, two after every 5xx whatever its headers, and after a 429 the n seconds of its header, else its date, else two |
| Wire.BodyStatusIs | providers/nfeio/adapter/client.go:187-188 | an integer status in an object body is read, anything else is not |
| Wire.AttemptCount | providers/nfeio/adapter/client.go:115-135 | without cancellation the number of attempts is the position of the first non-transient reply, capped at three |
| Wire.RetryAccounts | providers/nfeio/adapter/client.go:121-139 | the error counter counts every failed attempt, and the waits are those of all attempts but the last |
| Wire.WaitsWithoutHeader | providers/nfeio/adapter/client.go:164-201 | unless a 429 carries a Retry-After header the total wait is one second for each lost attempt but the last plus two for each failed reply but the last, in any mix and whatever headers other replies carry |
| Wire.TerminalIsRetriedIff | providers/nfeio/adapter/client.go:69-77 | a terminal error is retried exactly when a 429 or 5xx carries a body whose integer status is 400, 404, 409 or 422 |
| Wire.TerminalIsRetried | providers/nfeio/adapter/client.go:187-201 | such a reply: a 503 whose body says 404 |
| Wire.RetryAfterSeconds | providers/nfeio/adapter/client.go:193-217 | a positive integer Retry-After on a 429 is honoured exactly if and only if it is at most 9223372036 seconds |
| Wire.CutReadIff | providers/nfeio/adapter/client.go:176-185 | the caller of a 2xx reply gets what was sent exactly when all of its body was read, an empty success exactly when nothing was, and a decode error exactly when a part was |
| Webhooks.BuildDesiredFields | providers/nfeio/adapter/webhook_subscription.go:171-206 | for every object and every map iteration order, the PUT object changes only insecureSsl and, in a migration, the secret and the headers, which lose exactly the keys that fold to Authorization; it fails exactly on unreadable headers in a migration |
| Webhooks.DeleteAuthorization | providers/nfeio/adapter/webhook_subscription.go:195-199 | deleting from the header map while ranging over it removes exactly the case variants of Authorization, whatever the order |
| Webhooks.DesiredFieldsIdempotent | providers/nfeio/adapter/webhook_subscription.go:171-206 | computing the update from an updated object gives that object again |
| Webhooks.DecodeEnsureInput | providers/nfeio/adapter/webhook_subscription.go:40-98 | the input is accepted exactly when no field is refused on its own, whatever the iteration order; then every field has its decoded value, and a refusal names a field that really is refused |
| Webhooks.AcceptedFieldsIff | providers/nfeio/adapter/webhook_subscription.go:46-96 | the acceptable payloads, name by name and JSON kind by JSON kind |
| Webhooks.DecodedFields | providers/nfeio/adapter/webhook_subscription.go:46-90 | which field of the payload each field of the input is |
| Webhooks.DocumentShapes | providers/nfeio/adapter/webhook_subscription.go:119-134 | the enveloped and the flat response shape are read, anything else is refused |
| Webhooks.AccessorsRead | providers/nfeio/adapter/webhook_subscription.go:136-169 | id, insecureSsl, secret and headers of a document, in terms of its JSON; null reads as false |
| Webhooks.ValidatesIff | providers/nfeio/adapter/webhook_subscription.go:282-307 | the inputs let through are exactly those with a valid exact id, insecure_ssl false, no destroy field, and all of a migration under a valid secret or none of it; a refusal names something that is wrong with the input |
| Webhooks.ValidIdIff | providers/nfeio/adapter/webhook_subscription.go:348-362 | the valid ids, for all strings: 1 to 128 letters, digits, "-", "_" or ".", except "." and ".." |
| Webhooks.ValidSecretIff | providers/nfeio/adapter/webhook_subscription.go:309-311 | a secret in printable ASCII is valid exactly when it has 32 to 64 characters |
| Webhooks.WebhookPathRoutes | providers/nfeio/adapter/webhook_subscription.go:364-366 | the webhook path of any id routes to that id alone |
| Webhooks.ValidIdPath | providers/nfeio/adapter/webhook_subscription.go:348-366 | a valid webhook id is sent unescaped |
| Webhooks.ValidIdSurvivesDots | providers/nfeio/adapter/webhook_subscription.go:348-351 | the path of a valid webhook id routes to that id even at a server that removes dot segments |
| WebhookClient.EnsureWebhookSubscription | providers/nfeio/adapter/webhook_subscription.go:230-280 | the sequential code does what the attempt machine does, for every provider: same requests, same final state, same report |
| WebhookClient.GetWebhookByExactId | providers/nfeio/adapter/webhook_subscription.go:322-332 | one retried GET of the exact path; a document is returned only if its id is the requested one |
| WebhookClient.ObserveWebhookSubscription | providers/nfeio/adapter/webhook_subscription.go:464-477 | the same agreement for observe |
| WebhookClient.DestroyWithDesired | providers/nfeio/adapter/reconcilers.go:215-227 | the same agreement for destroy, guards included |
| Calls.RunPhase | providers/nfeio/adapter/client.go:115-141 | advancing a call attempt by attempt equals running the retry loop and then the code after it |
| Calls.EnsureTrace | providers/nfeio/adapter/webhook_subscription.go:230-280 | for every provider, in terms of the replies met: no request exactly when the input is not acceptable; else GETs of the exact path, at most three; PUTs exactly when the last GET showed the exact id and either (ordinary) insecureSsl true with the runtime secret or (migration) a readable insecureSsl and readable headers, and then of the framed object; confirming GETs exactly when the last PUT got a 2xx; and the report each of these cases ends with, every error included |
| Calls.ObserveTrace | providers/nfeio/adapter/webhook_subscription.go:464-477 | for every provider: no request exactly for an invalid id, else at most three GETs of the exact path; the flag reported is the one last shown, and every other case is its own error |
| Calls.StaysOnPath | providers/nfeio/adapter/webhook_subscription.go:225-229 | every request is on the exact-id path, never a POST; only destroy sends DELETE and only ensure sends PUT |
| Calls.DestroyTrace | providers/nfeio/adapter/webhook_subscription.go:417-433 | no request unless ref, any given id or ref field, and confirm_id all agree on a valid id, with the guard that failed as the report; then one to three DELETEs of the exact path, the last of which alone decides between deleted, already absent and the error |
| Calls.ErrorReadsAsGoneIff | providers/nfeio/adapter/webhook_subscription.go:428-431 | a provider that answers every DELETE with the same error is reported as "already absent" exactly when the effective status is 404, whatever the HTTP code |
| Calls.ServerErrorReadsAsGone | providers/nfeio/adapter/client.go:187-203 | such a reply: a 503 whose body says 404 |
| Calls.NonInterference | providers/nfeio/adapter/webhook_subscription.go:313-346 | two runs that meet exchanges alike in failure class, effective status and, for reads alone, id match, insecureSsl, header shape, Authorization presence and secret match return the same report after the same number of requests, whatever every other provider field, header value, reply body to a write, error body or secret is |
| Calls.TaskNonInterference | providers/nfeio/adapter/webhook_subscription.go:446-478 | the same for whole ensure, observe and destroy calls from their validation on |
| WebhookStore.RequestEffect | providers/nfeio/adapter/webhook_subscription.go:254-260 | what a call's own request does to a provider that replaces objects on PUT and finds them by path |
| WebhookStore.DisruptedResume | providers/nfeio/adapter/client.go:129-138 | a lost or failing attempt leads to the same request again or to a refusal; to a success only for a destroy that meets an error of effective status 404 |
| WebhookStore.CroppedResume | providers/nfeio/adapter/webhook_subscription.go:322-332 | an honest answer that is not read whole leads where the whole answer leads, or to a refusal |
| Interleaving.StepKeeps | providers/nfeio/adapter/webhook_subscription.go:230-280 | one attempt of any call keeps the invariant of all calls, and changes an object only into a secure one with the runtime secret and its own id |
| Interleaving.Absorbing | providers/nfeio/adapter/webhook_subscription.go:171-206 | under every interleaving with every pattern of lost requests and replies, no id appears, and "insecureSsl is false", "the secret is the runtime secret" and "the stored id equals its key" are each absorbing |
| Interleaving.ReportsStayTrue | providers/nfeio/adapter/webhook_subscription.go:243-279 | however long ago and whatever else ran: a reported ensure names an object that is still secure with its id (and secret, if updated) or was destroyed; a reported destroy, lost replies included, names an absent id, unless a destroy of that id met a failing reply of effective status 404, which a run without such replies rules out |
| Interleaving.RemovedOnlyByConfirmedDestroy | providers/nfeio/adapter/reconcilers.go:211-227 | an id disappears only by a destroy whose ref, confirm_id and any given id or ref field all equal it |
| Migration.CleanIsStableIff | providers/nfeio/adapter/webhook_subscription.go:195-204 | a clean object stays free of Authorization under every continuation if and only if no call in flight is about to write one that has it |
| Migration.ThreatsAreOrdinary | providers/nfeio/adapter/webhook_subscription.go:246-253 | only ordinary calls are such a threat, and only when the provider shows the secret on GET |
| Migration.MigrationSettles | providers/nfeio/adapter/webhook_subscription.go:250-277 | once a migration's PUT lands, the header is gone for good, if every call past its read is itself a migration or the provider hides the secret |
| Migration.OrdinaryWriteRestoresAuthorization | providers/nfeio/adapter/webhook_subscription.go:243-258 | a concrete schedule of two calls in which an ordinary write brings the header back after a migration removed it |
| Convergence.SequentialIsSchedule | providers/nfeio/adapter/webhook_subscription.go:230-280 | every sequential run, with any lost requests and replies, is one of the interleavings |
| Convergence.AppliedAtMostOnce | providers/nfeio/adapter/webhook_subscription.go:250-260 | however often the PUT is sent, a run leaves the provider unchanged or in the state of a single application, and a reported update was applied |
| Convergence.SecureNeedsNoUpdate | providers/nfeio/adapter/webhook_subscription.go:243-245 | an ordinary ensure of a secure object is one GET phase that writes nothing |
| Convergence.ReplayChangesNothing | providers/nfeio/adapter/webhook_subscription.go:250-279 | replaying a migration sends an equal PUT and leaves the provider unchanged |
| Convergence.EnsureConverges | providers/nfeio/adapter/webhook_subscription.go:230-280 | after any successful ensure the next one changes nothing: an ordinary one only reads and reports no update, a migration sends the stored object and succeeds in three requests |
| Convergence.OrdinaryRepairHappens | providers/nfeio/adapter/webhook_subscription.go:246-279 | against an undisturbed provider that shows the runtime secret, an ordinary ensure of an insecure object takes three requests, sends the object with insecureSsl false and nothing else changed, leaves exactly that, and reports the update |
| Convergence.MigrationHappens | providers/nfeio/adapter/webhook_subscription.go:250-279 | a migration of an object with its id, a readable insecureSsl and readable headers takes three requests, leaves the framed object and reports the update, whether or not the provider shows the secret |
| Cancelling.DestroyServiceInvoice | providers/nfeio/adapter/reconcilers.go:78-90 | the guards, the company fallback and at most three PUTs of the exact cancel path; destroyed exactly when the last reply is a 2xx whose status is "Cancelled", pending with the reply's own texts on any other 2xx that decodes, and the error of the last attempt otherwise |
| Cancelling.NoLiveInvoiceReportedDestroyed | providers/nfeio/adapter/adapter.go:603-624 | with Cancelled absorbing at the provider, an invoice reported destroyed is cancelled then and after every sequence of later calls, whatever was lost on the way |
| Issuing.IssueNfse | providers/nfeio/adapter/adapter.go:426-488 | a missing template or company sends nothing and is reported as such; otherwise at most three POSTs of the item's own request (path, external id, template fields under the item's own), and a report read off the last reply: id and status of a 2xx or 409 body, or the error |
| Issuing.AcceptsInvoiceIff | providers/nfeio/adapter/adapter.go:407-419 | the reply bodies that decode, field by field |
| Issuing.ReplayIsDo | providers/nfeio/adapter/adapter.go:472-487 | replaying the attempts met by the retry loop on the call machine reaches the loop's conclusion |
| InvoiceRegistry.SuccessNamesInvoice | providers/nfeio/adapter/adapter.go:474-486 | whatever happened to earlier attempts, an attempt that ends in success (201 or the 409 path) carries the id of the invoice registered for its company and external id, unless its reply is a failure of effective status 409 that the registry did not send, or an answer of the registry cut so short that the success names no invoice; in the latter case the invoice exists and the id reported is empty |
| FalseSuccesses.ErrorReadsAsIssuedIff | providers/nfeio/adapter/adapter.go:481-486 | a provider that answers every attempt with the same error is reported as an issued duplicate exactly when the effective status is 409, whatever the HTTP code |
| FalseSuccesses.FailedReplyIssuesIff | providers/nfeio/adapter/adapter.go:481-486 | one failing attempt ends a call as issued exactly when its effective status is 409 and it is not retried |
| FalseSuccesses.ServerErrorReadsAsIssued | providers/nfeio/adapter/client.go:187-203 | such a reply: a 503 whose body says 409 ends in an issued invoice without an id |
| FalseSuccesses.CutReplyIssuesIff | providers/nfeio/adapter/client.go:176-180 | one reply that is not read whole ends a call as issued exactly when nothing was read of a 2xx reply or the HTTP code is 409, and then without an id |
| FalseSuccesses.UnreadReplyReadsAsIssued | providers/nfeio/adapter/client.go:176-180 | such a reply: a 201 of which nothing was read, for one attempt and for a whole call |
| InvoiceRegistry.ServeGrows | providers/nfeio/adapter/adapter.go:421-425 | a provider that dedups on company and external id never registers two invoices for one key and never changes a registered one |
| InvoiceRegistry.RegisterAllGrows | providers/nfeio/adapter/adapter.go:421-425 | the same for any number of creations by other callers |
| Bulk.BulkIssue | providers/nfeio/adapter/bulk_issue.go:44-100 | over 50 items is refused, none is an empty result; otherwise some schedule of the step system finishes, and every slot carries its own index, external id, and the outcome of its own item's attempts; successes and failures sum to the item count |
| Bulk.AtMostFiveInFlight | providers/nfeio/adapter/bulk_issue.go:54-71 | in every reachable state at most five IssueNFSe calls are being executed |
| Bulk.NoDeadlock | providers/nfeio/adapter/bulk_issue.go:57-90 | until the result is returned, some step is possible |
| Bulk.NeverBlocks | providers/nfeio/adapter/bulk_issue.go:64-65 | a spawned goroutine can always proceed: its semaphore place and its wait-group count are there to give back |
| Bulk.StepDecreases | providers/nfeio/adapter/bulk_issue.go:57-90 | every step of every schedule decreases a natural-number measure, so every schedule ends |
| Bulk.StepKeepsInv | providers/nfeio/adapter/bulk_issue.go:54-90 | every step keeps the agreement of the semaphore, the wait group, the goroutines, the slots and the attempts met |
| Bulk.ExecInv | providers/nfeio/adapter/bulk_issue.go:54-90 | every schedule keeps the invariant and makes no more effective moves than the initial measure |
| Bulk.SlotsAreWrittenOnce | providers/nfeio/adapter/bulk_issue.go:87-87 | a written slot is never written again |
| Bulk.FinishedIsResult | providers/nfeio/adapter/bulk_issue.go:90-99 | when the batch returns, every item's call had concluded and its slot reports that conclusion; the success count is the number of successful slots and the counts sum to the batch |
| Bulk.SlotTellsTheReply | providers/nfeio/adapter/bulk_issue.go:71-87 | what a slot shows, read off the last reply its item met: id and status of a 2xx or 409 body, the name of any other error body as error code, and a failure without a code when there was no reply or no attempt |
| BulkOutcomes.ExactlyOnce | providers/nfeio/adapter/bulk_issue.go:57-88 | against a deduplicating provider, under every schedule, with any creations by other callers in between and every pattern of applied-but-lost requests, failing replies and cut replies: at most one invoice per key, earlier invoices keep theirs, and every reported success carries its key's invoice id, unless an attempt for that key met a failing reply of effective status 409 that the registry did not send, or an answer of the registry cut so short that the success names no invoice; a script without such replies misleads no key; the company is the item's, else the batch's, else the default |
| BulkOutcomes.EverySchedule | providers/nfeio/adapter/bulk_issue.go:44-100 | if the provider answers the n-th attempt of every request by a script, errors that a retry recovers from included, and items share no request whose answers vary, then every finished schedule returns what the retry loop returns for each item alone against its script |
| BulkOutcomes.EveryScheduleOfAnswers | providers/nfeio/adapter/bulk_issue.go:44-100 | in particular for a provider that answers each request alike every time, whether or not items share requests |
| BulkOutcomes.DistinctKeysHaveOwnScripts | providers/nfeio/adapter/bulk_issue.go:57-61 | items with distinct company or external id post distinct requests |
| BulkOutcomes.ItemRequestIs | providers/nfeio/adapter/bulk_issue.go:57-71 | each item posts its own request under its own company, else the batch's, else the default |
| BulkOutcomes.CountingFollowsScript | providers/nfeio/adapter/client.go:115-120 | a provider that counts the attempts of each request follows any script |
| Signature.VerifySignature | providers/nfeio/adapter/webhook_server.go:148-166 | accepted exactly when the secret is valid, no key folds to the obsolete header, the keys folding to X-Hub-Signature hold one value in all, and that value trimmed is the scheme and a hexadecimal spelling of the 20-byte digest of the exact body |
| Signature.SenderIsAccepted | providers/nfeio/adapter/webhook_server.go:144-166 | a callback with one signature header in any letter case and a digest in lower-case or upper-case digits is accepted |
| Signature.SenderIsRefused | providers/nfeio/adapter/webhook_server.go:149-158 | the obsolete header, no header, or an invalid secret is refused |
| Signature.SingleHttpHeader | providers/nfeio/adapter/webhook_server.go:168-185 | the one value of a header over all its case variants, for every map iteration order, or nothing |
| Signature.HexDecodeSpells | providers/nfeio/adapter/webhook_server.go:159-162 | decoding accepts exactly the strings with two digits of either letter case per byte, and gives those bytes |
| Paths.HexValueIff | providers/nfeio/adapter/webhook_server.go:159-162 | the hexadecimal digits of both letter cases, and nothing else |
| Text.EqualFoldIff | providers/nfeio/adapter/webhook_server.go:172-172 | names fold together exactly when they have the same lower case, apart from two special characters |
| Text.FoldsIff | providers/nfeio/adapter/webhook_subscription.go:196-196 | which characters fold together, those two included |
| Text.TrimSpaceIs | providers/nfeio/adapter/webhook_server.go:180-180 | trimming cuts white space from both ends, all of it, and nothing else |
| Recent.HoldsExactlyTheRecent | providers/nfeio/adapter/webhook_server.go:36-36 | cache membership is exactly "seen, and fewer than capacity distinct other keys touched since" |
| Recent.AfterIsNewest | providers/nfeio/adapter/webhook_server.go:116-122 | the bounded cache is the newest part of an unbounded memory |
| Reactor.WebhookServer.Handle | providers/nfeio/adapter/webhook_server.go:93-142 | the verdict and the new history and publish log of every delivery, from its payload: refused ones leave no trace, a repeat of its key (the payload id, or the body's digest when that is empty) inside the window of 4096 keys is a duplicate, every other one is handed to the publisher once, with the queue of its event and its exact body, whether the publisher fails or not, and is unrouted when its event has no queue |
| Reactor.RoutesByVerb | providers/nfeio/adapter/webhook_server.go:187-214 | the queue of every event name by kind and verb; nfe.issued, nfe.processing_failed and nfse.rejected have none, nor has any name of another kind |
| Reactor.AgreesInsideWindow | providers/nfeio/adapter/webhook_server.go:111-141 | the publish log equals that of an unlimited memory if and only if every routed repeat comes inside the window |
| Reactor.EveryTraffic | providers/nfeio/adapter/webhook_server.go:116-136 | with lookup and insertion as separate steps, every schedule from the arrival of all deliveries publishes each at most once, and only routed ones |
| Reactor.PublishedIff | providers/nfeio/adapter/webhook_server.go:116-136 | from any reachable traffic, a delivery is published if and only if it is routed, reaches its insertion, and its key was not among the most recently touched ones at its lookup; it is a duplicate exactly when the key was |
| Reactor.PublishedInRunIff | providers/nfeio/adapter/webhook_server.go:116-136 | the same for whole schedules from the arrival of all deliveries |
| Reactor.LateDeliveryIsNeverPublished | providers/nfeio/adapter/webhook_server.go:116-136 | so a delivery whose lookup comes after another delivery of its key was inserted, inside the window, is never published |
| Reactor.OverlappingDeliveriesBothPublish | providers/nfeio/adapter/webhook_server.go:116-136 | and two routed deliveries of a key that both look up before either is inserted, outside the window of any earlier one, are both published |
| Reactor.OneEventTwicePublished | providers/nfeio/adapter/webhook_server.go:116-136 | such a schedule: one event delivered twice to an empty cache |
| Queries.KeyParses | providers/nfeio/adapter/list_municipalities.go:54-56 | reading the key from its last two bars recovers state, page and size, for all strings and all integers |
| Queries.PathParses | providers/nfeio/adapter/list_municipalities.go:91-94 | the path text handed to the client determines the normalized query, even with an unescaped state |
| Queries.NormalizeServes | providers/nfeio/adapter/list_municipalities.go:78-86 | the query asked for keeps the caller's state, page and admissible size, and is page 1, size 100 or size 500 where these are 0, 0 or above 500 |
| Queries.Texts | providers/nfeio/adapter/list_municipalities.go:54-56 | key and path, written out |
| Queries.KeyIdentifiesRequest | providers/nfeio/adapter/list_municipalities.go:78-94 | queries that share a cache entry send the same request; the converse fails exactly for states that differ only from a '#' on, so it holds when neither has one |
| Queries.FragmentSharesRequest | providers/nfeio/adapter/list_municipalities.go:92-94 | such states: "SP" and "SP#x" |
| Queries.RequestedSizesAre | providers/nfeio/adapter/list_municipalities.go:91-94 | the page sizes a sent request asks for are the query's own followed by those its state adds |
| Queries.BoundedIff | providers/nfeio/adapter/list_municipalities.go:84-94 | a request asks for at most 500 entries exactly when no parameter its state adds is a larger page size, and for its own size alone exactly when none is a page size |
| Queries.StateAddsPageSize | providers/nfeio/adapter/list_municipalities.go:92-94 | such a state: with "SP&pageSize=9999" the request asks for 100 and for 9999 entries |
| Queries.PlainStateIsBounded | providers/nfeio/adapter/list_municipalities.go:84-94 | a state without '&' leaves the request its own size, at most 500 |
| Municipalities.MunicipalitiesCache.Get | providers/nfeio/adapter/list_municipalities.go:58-66 | the stored payload whatever its age, and fresh exactly before its expiry |
| Municipalities.MunicipalitiesCache.Set | providers/nfeio/adapter/list_municipalities.go:68-72 | the entry of one key is replaced, every other entry stays |
| Municipalities.ListMunicipalities | providers/nfeio/adapter/list_municipalities.go:77-105 | every request is a GET whose path reads as what serves the caller's input, under the key of that query: a fresh entry answers without a request; otherwise upstream's payload is returned and stored, or a stale one is returned when upstream fails, or the error when there is none |
| Municipalities.OneReadIff | providers/nfeio/adapter/list_municipalities.go:95-104 | what a call stores is what upstream gave exactly when all of it was read, an empty listing exactly when nothing was, and nothing when a part was |
| Municipalities.EmptyListingIsServed | providers/nfeio/adapter/list_municipalities.go:88-104 | two callers of one query that is not cached or stale: when nothing is read of the first one's payload, the empty listing replaces the cached one and the second caller gets it without asking |
| Municipalities.EveryRun | providers/nfeio/adapter/list_municipalities.go:77-105 | over every run of interleaved calls: a returned or cached payload is one upstream gave for that query, or the empty one after a read of nothing, which a run without such reads rules out; one returned without asking is younger than the TTL, a query that succeeded once never fails again, and every request sent is some caller's and asks for at most 500 entries exactly when that caller's state adds no larger page size |
| Municipalities.StepCallKeeps | providers/nfeio/adapter/list_municipalities.go:88-104 | every step of one call keeps what the other calls and the cache entries rely on |
| Envelope.WithEnvelopeInstance | providers/nfeio/adapter/adapter.go:92-137 | only a JSON object is rewritten, and the in-place rewrite is the function the lemmas below speak of |
| Envelope.WithServiceInvoiceDestroyRef | providers/nfeio/adapter/adapter.go:147-183 | the same for the destroy reference; the key loop finds the first present identifier |
| Envelope.ReferencedIff | providers/nfeio/adapter/adapter.go:147-183 | ref becomes the invoice_id exactly for a destroy_service_invoice whose input carries none of ref, service_invoice_id and id but an invoice_id that is not blank; nothing else changes |
| Envelope.OperationIs | providers/nfeio/adapter/adapter.go:185-197 | the operation is the trimmed operation field, or the trimmed capability field when that spells none |
| Envelope.InferredRefIs | providers/nfeio/adapter/adapter.go:139-146 | the reference inferred is the first of ref, service_invoice_id and id that carries a value |
| Envelope.LiftsInstanceIff | providers/nfeio/adapter/adapter.go:84-87 | for every envelope: instance_id changes exactly when it was absent and integration.instance.name is a string that is not blank, and then becomes that name trimmed |
| Envelope.LiftsIdempotencyIff | providers/nfeio/adapter/adapter.go:80-85 | for every envelope, with or without an instance name: the same for idempotency and metadata.idempotency |
| Envelope.RewritesIdempotentAndCommute | providers/nfeio/adapter/adapter.go:53-56 | each rewrite is idempotent and they commute |
| Envelope.RewritesFrame | providers/nfeio/adapter/adapter.go:84-91 | only instance_id, idempotency and input can change, a present caller value never does, and other operations keep their input |
| Envelope.IdentifierPrecedence | providers/nfeio/adapter/adapter.go:139-172 | the first present of ref, service_invoice_id and id stays what it was, or becomes invoice_id when none was present; no other input field changes |
| Paths.EscapeRoundTrip | providers/nfeio/adapter/adapter.go:754-759 | escaping an id is invertible and never yields a slash, a question mark or a hash |
| Paths.AsciiEscapes | providers/nfeio/adapter/path_escape_test.go:12-17 | what each ASCII character of an id is sent as |
| Paths.EscapeAppends | providers/nfeio/adapter/adapter.go:757-759 | escaping goes character by character |
| Paths.PathTexts | providers/nfeio/adapter/adapter.go:473-473 | every path, written out segment by segment |
| Paths.PathRoundTrip | providers/nfeio/adapter/adapter.go:579-579 | splitting and unescaping a built path recovers the kind of endpoint and the exact ids, whatever they contain |
| Paths.DistinctEndpointsDistinctPaths | providers/nfeio/adapter/adapter.go:663-663 | two endpoints share a path only if they are the same endpoint with the same ids |
| Paths.DotlessRoundTripIff | providers/nfeio/adapter/adapter.go:754-759 | at a server that removes dot segments (section 5.2.4 of RFC 3986), a built path recovers the endpoint and the exact ids if and only if no id is "." or ".." |
| Paths.DotCompanyAddressesAnother | providers/nfeio/adapter/adapter.go:473-474 | such an id: issuing under company "." |
| Paths.LiteralsEscapeToThemselves | providers/nfeio/adapter/adapter.go:757-759 | ids made of unreserved characters are sent as they are |
| Contractcheck.LintDescribeContract | pkg/contractcheck/contractcheck.go:72-134 | for every map iteration order the result is the report of the bag of issues: nothing for none, otherwise their sorted text |
| Contractcheck.CheckNames | pkg/contractcheck/contractcheck.go:93-97 | ranging over the catalog map in any order yields one issue per distinct unsupported name |
| Contractcheck.NilMeansConsistent | pkg/contractcheck/contractcheck.go:64-71 | nil exactly when all six documented relations hold |
| Contractcheck.IssueLines | pkg/contractcheck/contractcheck.go:85-127 | the lines of a report are exactly those of the violations, each in its own words |
| Contractcheck.RenderLists | pkg/contractcheck/contractcheck.go:132-133 | the text is the header and every line, none dropped |
| Contractcheck.ReportIsUnique | pkg/contractcheck/contractcheck.go:129-133 | a bag of issues has one report text |
| Contractcheck.OrderDoesNotMatter | pkg/contractcheck/contractcheck.go:60-62 | permuting any of the input lists, or the lists inside their entries, never changes the text |
| IssueBags.SortedIsUnique | pkg/contractcheck/contractcheck.go:132-132 | two sorted arrangements of the same texts are equal |

## Left out

- HTTP transport, tracing, metrics other than the count of failed attempts, logging, listeners, signal handling and the commands under `cmd/`: input and output.
- SDK dispatch, reconciler registration, event emission and the AMQP publisher: not in this repository; the publisher's answer is a parameter.
- JSON byte syntax: whitespace, key order, duplicate keys and number spelling carry no claim; Go's case-insensitive match of struct field names (error envelope, invoice and cancel replies, callback payload, envelope structs) is modelled as an exact match.
- Strings are sequences of Unicode scalar values; invalid UTF-8 in ids and headers is not modelled. Case folding covers every character that folds to an ASCII letter, which is exact for the ASCII names compared here.
- HMAC-SHA1 and SHA-256 are parameters about which nothing is assumed; constant-time comparison is plain equality. The hashicorp LRU library is a class with its documented behaviour.
- Failures to marshal a request body or to build a request, and failures to read a callback's body.
- The 120 s and 15 s timeouts of BulkIssue and the client's 30 s timeout: they appear as interrupted waits and attempts without reply, without a clock.
- The tax and borrower fields of the invoice request and the amounts in its reply: opaque; of the request body only externalId, of the reply only id, status and duplicate carry claims. Error messages of bulk results are left out, error codes are kept.
- The error texts of webhook calls: one value per distinct text. The text of CancellationPendingError and its cleaning of provider text.
- Decoding the raw inputs of observe_webhook_subscriptions and of the direct destroy_webhook_subscription route: the same loop as DecodeEnsureInput with fewer fields.
- Data races and aliasing: the slots of BulkIssue are written by atomic steps, the mutex of the municipalities cache is taken as atomic Get and Set, and the payload a cache hit shares by pointer is a value.
- A 2xx reply the provider did not send: the providers of `Interleaving`, `BulkOutcomes` and `Cancelling` do not claim a success they did not decide, though any part of their answers may go unread. `Wire` and `Calls` make no such assumption.
- Redirects: the HTTP client follows them below this model, so a 3xx reply appears only as the reply the last one leads to.
- State codes with control characters, or with a malformed percent escape after a '#': building their request fails, and that error is not modelled.
- Queries.BoundedIff: a parameter counts as a page size when its percent-decoded name is pageSize; a provider that also reads other spellings, such as another letter case, is not modelled.
- How long an attempt takes: it is one step of the bulk system that ends.
- Tax calculation, municipality templates, publish dispatch, bearer check, configuration, describe data, company registration, list and document retrieval beyond their paths: field copying and checks that would only add easy members.
- Wire.Client.Do: the waits are summed, not slept, and the HTTP-date form of Retry-After enters as a given duration.
- Municipalities.ListMunicipalities: now and later are the clock readings at lookup and at store, given as parameters.
- Contractcheck.LintDescribeContract: the %q verb is an arbitrary function, and sort.Strings is a function proved to sort.
- Reactor.WebhookServer.Handle: deliveries are handled one at a time there; their interleaving is AdvanceAll, which leaves signature and decoding out.
