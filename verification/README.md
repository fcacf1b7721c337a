# Verified model of snw-agent-link

`snw-agent-link` lets agents on different machines pair, exchange messages and attachments, and stream
signed events. This project models the protocols at its heart and proves what holds of every input,
every run and every interleaving. `dafny verify dfyconfig.toml` checks all of it.

| part | files |
|---|---|
| Pairing handshake: invite, acceptance, confirmation, receipt; revoke and block | `Pairing`, `PairingRun`, `PairingFrame`, `PairingLife`, `PairingService`, `Store` |
| Outbox, receipts and grants under a delivery worker, IPC calls and revocation | `Delivery`, `DeliveryService`, `Gateway`, `MessageLife` |
| Inbound deduplication under concurrency and crashes | `Dedup` |
| Signed SSE streams, against the client of sections 9.2.5 and 9.2.6 of the WHATWG HTML Standard | `EventSource`, `Sse`, `SseParts`, `SseMeaning`, `SseExact`, `SseChain` |
| Signature-Input text, signature bases, signing and verifying (sections 2.3, 2.5 and 4.1 of RFC 9421) | `Quoting`, `QuotingForms`, `SignatureInput`, `HttpSignature` |
| Byte ranges, chunked upload, resumable download (sections 14.1.2 and 14.4 of RFC 9110) | `Ranges`, `Upload`, `UploadLife`, `UploadService`, `Download` |
| Capability challenges, sessions and rotation | `Capability` |
| Codex adapter: bindings, mailbox, at-most-once injection, nonce window | `Adapter`, `AdapterLife`, `AdapterService`, `NonceWindow` |

Where the source changes tables, maps or files in place, a class does the same step by step. Each of its
methods leaves exactly the state that a function of the old state gives, keeps a `Valid()` that is the
invariant of the runs, and names the rows it may touch. The run theorems are about those functions: a
run is a list of actions, `Run` folds it, and the theorem quantifies over all lists. Beside the safety
theorems stand the `…Exactly` lemmas: when a call succeeds and what it then leaves, with times, limits
and tables written out, and what each protocol completes when its parties are honest. The table below
leaves out the smallest of these. Cryptography appears as function values with the laws a proof needs
stated as `requires` (signatures verify, or only signed texts verify; base64 decodes what it encodes;
hashes have their length). Nothing assumes an injective hash on unbounded input: the chain theorem says
"identical, or here is the collision". Envelope digests in the pairing model are the one exception;
there a digest stands for its envelope.

## What the proofs found

- Signing a stream can lose events in two ways. A byte order mark is no longer at the front, so the
  client does not drop it and misreads the first line (`BomLosesData`). And CR LF is rewritten to LF,
  which a lone CR in front swallows, so a blank line is dropped (`CrCrLfMergesEvents`).
  `SigningPreservesExactly` gives the exact condition for every complete stream; for streams without
  CR CR LF `SigningPreservesMeaning` has a simpler one.
- A cursor may contain NUL, which is also the separator inside the hash input. `AmbiguousExactly` says
  which cursors and events the hash input does not pin down: a NUL behind the cursor's first character,
  or in front of the event's first line end. A verified chain without such links is the only one of its
  length, start and last hash, up to hash collisions, whoever made the other one (`VerifiedChainsAgree`).
- Signature parameters survive printing and parsing if and only if no component name holds a blank or a
  closing parenthesis and neither key id nor nonce a semicolon (`ParsePrint`, for all metadata). The
  parser itself can return such metadata, from a nonce written `"\x3b"` (`EscapedSemicolonIsLost`). The
  signature is not affected: bases bind their parameters for all metadata (`BaseBinds`).
- A receiver whose chunk is larger than the server's never receives a byte of a blob larger than the
  server's chunk, and finishes every other one (`ResumableTransfer`, both directions).
- `ApplyConfirmation` stores the confirmation digest before it checks the contact's state, and
  `CreateInvite`, `ImportInvite` and `ApproveAcceptance` can fail between writes. The model keeps these
  partial writes, and the pairing theorems hold in spite of them.
- The retry recursion of `serveA2AWithDedup` has depth two when look-ups succeed; every failed look-up
  can add one (`RecursionDepth` is the bound, `RecursionReached` attains it for every number).
- The nonce window answers like an unbounded history exactly until a nonce with 4096 newer ones on
  record is used again (`WindowAgreesWithHistory`). That takes 4099 calls: `ShortRunsAgree` covers all
  shorter runs, `LongerRunsDiffer` is one that differs.
- The idempotency key of the outbox joins three texts with colons. A new message can be refused for the
  sake of another one exactly if its source, target or message id holds a colon (`RefusedExactly`,
  `KeysClash`); among messages between agent ids of equal lengths, as generated ones are, only a known
  message id is refused (`EqualLengthsRefuseKnown`).
- A request whose daemon stops between reserving its key and storing a response with a body leaves the
  key reserved for good: no retry is ever forwarded, and each is told that it is being worked on
  (`CrashOrphans`, `OrphanForGood`). That is the price of forwarding at most once.
- An upload survives any crash that leaves its part file: it can still be completed with every
  continuation of the announced size and digest. A daemon that stops between writing the metadata and
  creating the part file, or between publishing the blob and recording it, loses it for good
  (`ResumableExactly`, both directions).
- A part file that is not a prefix of the blob makes a download fail its digest, and once it is full
  every later call fails in the same way: nothing removes it (`ResumesExactly`).
- Rotation reads the generation and writes its successor without a guard. Two overlapping rotations of
  one agent write the same generation with different keys, and a session earned under the first key is
  then accepted though the second one is registered (`OverlapKeepsOldKey`). When every update replaces
  the generation it read, `RotationEndsSessions` and `AcceptedSessionHasCurrentKey` hold.
- A message that was handed over is handed over again when the daemon lists it under another context
  and a receive follows in that context, exactly if the context has no thread yet (`MovedIsRepeated`).
  When known messages are listed in place, injection is at most once.
- At-most-once injection in the adapter needs no assumption that outbound message ids are fresh: a send
  binds its context before it writes its row, and that is enough.

## Model

| member | source | states |
|---|---|---|
| `PairingRun.PairingAgreement` | internal/pairing/service.go:328-588 | In every run over a network that drops, repeats, reorders and carries forged envelopes under other keys: for every activation with an honest peer key, both sessions of the invite hold the same three digests and each other's key and host, and an inviter becomes active only after its invitee did |
| `PairingRun.ActiveContactsAgree` | internal/pairing/service.go:502-588 | A contact that becomes Active at any call of any run does so through an invite named in the log by that call, and with an honest peer key agreement holds between the two agents of that very contact |
| `PairingRun.RunKeeps` | internal/pairing/service.go:157-588 | The inductive invariant behind agreement: what each honest envelope on the network says about its sender's stored rows, kept by every pairing call and by forgery |
| `PairingRun.IdentityPinnedOverRuns` | internal/store/store.go:271-307 | Over any stretch in which a contact stays Active or AwaitingConfirmation its host and agent fingerprints are unchanged, whichever calls are made |
| `PairingRun.CallKeepsIdentity` | internal/store/store.go:271-307 | Every single pairing call keeps a pinned contact's fingerprints and enters Active only from AwaitingConfirmation |
| `PairingRun.ActiveOnlyFromAwaiting` | internal/pairing/service.go:532-584 | In every run, the state before a contact becomes Active is AwaitingConfirmation |
| `PairingLife.HandshakeCompletes` | internal/pairing/service.go:157-588 | From any tables in which the pair is neither pinned nor blocked: invite, import, accept, approve, confirm and activate between two honest agents, both consumptions before expiry, all succeed and leave both contacts Active with each other's host and key |
| `PairingLife.HandshakeRuns` | internal/pairing/service.go:157-588 | At any point of any run, six calls of two honest agents whose pair is neither pinned nor blocked, made while the invite lasts, leave both contacts Active and log an activation on each side |
| `PairingLife.RevocationReaches` | internal/pairing/service.go:590-664 | At any point of any run, a revocation severs the contact and its notice severs the peer's, with both cascades row by row |
| `PairingLife.BlockTakesEffect` | internal/pairing/service.go:666-682 | At any point of any run, a block takes effect at once, row by row |
| `PairingLife.UnsignedChangesNothing` | internal/pairing/service.go:229-664 | No call changes anything on an envelope that its signer has not released |
| `PairingLife.ConsumedInTime` | internal/pairing/service.go:370-371 | In every run, a request that becomes consumed does so at an accept or approve whose clock is before the request's expiry |
| `PairingLife.InviteExactly` | internal/pairing/service.go:157-227 | When an invite is made, and the request, session, contact and envelope it leaves |
| `PairingLife.ImportExactly` | internal/pairing/service.go:229-302 | When an invite is taken in, and the rows it leaves |
| `PairingLife.ConcernsExactly` | internal/pairing/service.go:328-362 | Which contact an acceptance concerns, by id or as the only pending one |
| `PairingLife.AcceptExactly` | internal/pairing/service.go:364-410 | When an acceptance is signed: a pending contact, its session and an unconsumed request before its expiry; and the rows and envelope it leaves |
| `PairingLife.ApproveExactly` | internal/pairing/service.go:412-500 | When an acceptance is approved: signature, secret, digests, identities and an unconsumed request before its expiry; and the rows and confirmation it leaves |
| `PairingLife.ConfirmExactly` | internal/pairing/service.go:502-556 | When a confirmation activates the invitee's contact, and the receipt it leaves |
| `PairingLife.ActivateExactly` | internal/pairing/service.go:558-588 | When a receipt activates the inviter's contact |
| `PairingLife.RevokeExactly` | internal/pairing/service.go:590-664 | When a revocation succeeds, the cascade it leaves and the notice it signs |
| `PairingLife.ApplyRevocationExactly` | internal/pairing/service.go:617-643 | When a peer's notice is applied, and the cascade it leaves |
| `PairingLife.BlockExactly` | internal/pairing/service.go:666-682 | When a contact is blocked, and the cascade it leaves |
| `PairingService.Service.Invite` | internal/pairing/service.go:157-227 | On success and on each early return exactly the rows written so far; the invariants of every run are kept, and only the contact of that pair and the request and session of that invite may change, with pinned fingerprints kept |
| `PairingService.Service.Import` | internal/pairing/service.go:229-302 | On success and on each early return exactly the rows written so far, with the same invariants and frame; a blocked contact is left alone, and a pinned contact keeps its fingerprints though its state is reset when they match |
| `PairingService.Service.CountPending` | internal/pairing/service.go:328-362 | The loop counts exactly the agent's pending contacts and remembers one of them |
| `PairingService.Service.Accept` | internal/pairing/service.go:328-410 | The tables and the signed acceptance, for zero, one and several pending contacts; the invariants of every run are kept, and only the contact of that pair and the request and session of that invite may change, with pinned fingerprints kept (`PairingLife.AcceptExactly` says when it succeeds) |
| `PairingService.Service.Approve` | internal/pairing/service.go:412-500 | The tables and the confirmation, or the error with what was already written; the invariants of every run are kept, and only the contact of that pair and the request and session of that invite may change, with pinned fingerprints kept (`PairingLife.ApproveExactly` says when it succeeds) |
| `PairingService.Service.Confirm` | internal/pairing/service.go:502-556 | The tables and the receipt, or the error with the session write that stands; the invariants of every run are kept, and only the contact of that pair and the request and session of that invite may change, with pinned fingerprints kept |
| `PairingService.Service.Activate` | internal/pairing/service.go:558-588 | The tables after a receipt is applied or refused; the invariants of every run are kept, and only the contact of that pair and the request and session of that invite may change, with pinned fingerprints kept |
| `PairingService.Service.RevokeContact` | internal/pairing/service.go:590-664 | Contact revoked, its messages cancelled, its grants revoked, a notice signed; nothing of another pair changes |
| `PairingService.Service.ApplyNotice` | internal/pairing/service.go:617-643 | The same cascade from the peer's notice, or the refusal; nothing of another pair changes |
| `PairingService.Service.BlockContact` | internal/pairing/service.go:666-682 | The same cascade into Blocked; nothing of another pair changes |
| `PairingService.Service.StoreContact` | internal/store/store.go:271-307 | The guarded upsert: a pinned identity is not overwritten |
| `Gateway.RevocationCascade` | internal/pairing/service.go:617-682 | With handlers and worker interleaved, a Revoked or Blocked contact never has a Pending message or an unrevoked grant |
| `Gateway.SeveredForGood` | internal/store/store.go:832-840 | Messages and grants a pair had when it was severed stay closed in every later state, re-pairing included |
| `Gateway.SeveredGrantsServeNothing` | internal/store/store.go:1160-1213 | The blob gate never serves a grant made before a severance, even when the pair is active again |
| `Gateway.OutboxLifecycle` | internal/store/store.go:748-840 | Between any two points of a run: attempts only grow, Delivered and Cancelled are final, Delivered exactly when there is one receipt |
| `Gateway.RunAges` | internal/management/handler.go:116-203 | No row, receipt or grant is ever deleted, and rows change only along the lifecycle, whichever of send, cancel, grant, pairing call or worker statement runs |
| `Gateway.RunFits` | internal/store/store.go:758-806 | Receipts match delivered rows, one to one and under the row's own target |
| `MessageLife.NothingFromNowhere` | internal/management/handler.go:116-203 | In every run each row holds the context and payload one message.send asked for while the contact was Active, each receipt the remote id and time the worker got for a row then pending, and each grant what one attachment.grant asked for while the contact was Active, not withdrawn since unless revoked |
| `MessageLife.ServedWasGranted` | internal/store/store.go:1160-1213 | A blob is served in a run only on a grant made in that run for this pair, blob, context and digest, not withdrawn and not yet expired |
| `MessageLife.SendExactly` | internal/management/handler.go:116-148 | When message.send succeeds, and the one row it adds, due at once; a repeated one changes nothing |
| `MessageLife.SentIsDue` | internal/management/handler.go:116-148 | A sent message meets what the bounded wait asks of one |
| `MessageLife.AttemptExactly` | internal/delivery/service.go:87-116 | A failed attempt on a pending message counts once and makes it due again exactly when its delay is over; a successful one delivers it with the transport's id and the time of the pass; no other row changes |
| `MessageLife.LateAttempt` | internal/store/store.go:748-806 | An attempt on a message no longer pending changes nothing, and is accepted exactly if it repeats the recorded delivery |
| `MessageLife.CancelExactly` | internal/store/store.go:808-830 | When message.cancel succeeds, and the one row it changes |
| `MessageLife.GrantExactly` | internal/management/handler.go:441-466 | When attachment.grant succeeds, and the unrevoked grant it stores |
| `MessageLife.AuthorizeExactly` | internal/store/store.go:1160-1213 | The gate serves exactly what an unrevoked, unexpired grant of an Active contact names, to that contact's key |
| `MessageLife.MessageGoesOut` | internal/delivery/service.go:77-118 | At any point of any run, a message to an Active contact, tried once in vain and then delivered, ends as one Delivered row with its content, one attempt and one receipt with the transport's id and time |
| `MessageLife.CancelledStays` | internal/store/store.go:808-830 | The same message cancelled first ends as one Cancelled row, and its delivery is refused |
| `MessageLife.GrantOpens` | internal/store/store.go:1113-1196 | At any point of any run, a grant to an Active contact opens its blob to that contact's key until it expires, and withdrawing it closes the blob |
| `Delivery.BoundedWait` | internal/delivery/service.go:77-118 | A due message behind r pending ones is attempted within floor(r/batch)+1 error-free passes, whatever is sent and cancelled meanwhile |
| `Delivery.RoundClears` | internal/delivery/service.go:77-118 | A pass that leaves a due message out removes a full batch of rows from in front of it |
| `Delivery.DueListUnique` | internal/store/store.go:721-746 | What the store lists is determined: the first due rows in the order of the statement |
| `Delivery.CountersExact` | internal/delivery/service.go:77-118 | Both counters equal the rows moved, each once and only listed ones, also when the pass stops early |
| `DeliveryService.Service.ProcessDue` | internal/delivery/service.go:77-118 | One pass on the stored tables: what it lists, what it writes, its exact counters |
| `DeliveryService.Service.ListDueOutbox` | internal/store/store.go:721-746 | The first due rows in order, none skipped and none extra |
| `DeliveryService.Service.EnqueueOutbox` | internal/store/store.go:672-695 | A new pending row, or a refusal by the primary key or the idempotency key; receipts still fit rows and no other message changes |
| `Store.RefusedExactly` | internal/store/store.go:672-695 | Some outbox without the message id refuses the insert if and only if source, target or message id holds a colon |
| `Store.EqualLengthsRefuseKnown` | internal/store/store.go:672-695 | In an outbox whose agent ids have the message's lengths, the insert is refused if and only if the message id is known |
| `Store.KeyTellsParts` | internal/management/handler.go:135-137 | Between agent ids of equal lengths the idempotency key determines source, target and message id |
| `Store.KeysClash` | internal/store/store.go:672-695 | An instance: an accepted message, and a new one between other agents whose insert it makes fail |
| `DeliveryService.Service.ScheduleOutboxRetry` | internal/store/store.go:748-756 | A pending row gets one more attempt and a new time; any other row is refused; nothing is undone and no other message changes |
| `DeliveryService.Service.MarkOutboxDelivered` | internal/store/store.go:758-806 | Row and receipt change together or not at all, so receipts still fit rows; no other message changes |
| `DeliveryService.Service.CancelOutbox` | internal/store/store.go:808-830 | Only a pending row is cancelled; nothing is undone and no other message changes |
| `DeliveryService.Service.CancelOutboxForContact` | internal/store/store.go:832-840 | Every pending row of the pair is cancelled, no other row changes |
| `DeliveryService.RetryDelay` | internal/delivery/service.go:120-141 | For every base delay, with its rounding to float64: the delay lies between the capped power-of-two back-off and the maximum for any jitter, with no overflow; below 2^53 ns there is no rounding |
| `DeliveryService.BackoffMonotone` | internal/delivery/service.go:120-141 | The back-off starts at the base, never shrinks with the attempt, never exceeds the maximum |
| `DeliveryService.BackoffDoubles` | internal/delivery/service.go:120-141 | The bare delay is the base at first, doubles with every further attempt up to the maximum, and stays from the 63rd attempt on |
| `DeliveryService.FloatExactly` | internal/delivery/service.go:128-129 | The base delay as float64: the nearer multiple of the spacing of 53-bit numbers, and the even one of two equally near |
| `Dedup.DedupRefinesMemo` | internal/gateway/router.go:172-239 | Every step of every run with concurrent requests and crashes is a step of a memo table, and every forward and reply is one the table allows |
| `Dedup.ForwardedAtMostOnce` | internal/gateway/router.go:172-239 | Each key is forwarded at most once, with the body of its inbox row, and all answers for a key are the same response |
| `Dedup.ResultIsFinal` | internal/store/store.go:1291-1348 | A stored result stays, and every later reply for its key is that result or an internal error |
| `Dedup.CompletionStores` | internal/gateway/router.go:187-239 | In every run, a successful completion of a request forwarded with a replayable response leaves its key with exactly that response |
| `Dedup.LookUpExactly` | internal/gateway/router.go:187-204 | What a look-up answers for each state of its key: the stored response, working, or a new reservation |
| `Dedup.RetryGetsResult` | internal/gateway/router.go:187-193 | In every run, a look-up of a key with a stored response replies with that response |
| `Dedup.NewRequestServed` | internal/gateway/router.go:172-239 | From any state in which its key is unknown, an uninterrupted request is forwarded once, answered with the response and remembered with it |
| `Dedup.OrphanForGood` | internal/gateway/router.go:187-216 | A reserved key that no request holds and that has nothing to replay is never forwarded or answered with a response again, in any continuation |
| `Dedup.CrashOrphans` | internal/gateway/router.go:205-239 | A crash leaves a key in that state if and only if it is reserved with nothing to replay |
| `Dedup.RecursionDepth` | internal/gateway/router.go:205-216 | At most two activations, plus one per failed look-up |
| `Dedup.RecursionReached` | internal/gateway/router.go:205-216 | For every n, a run in which a request has failed n look-ups and runs at depth 2 + n |
| `SseExact.SigningPreservesExactly` | internal/transport/sse.go:157-186 | Every complete stream dispatches the same events signed and unsigned if and only if its lines are faithful: between two kept blank lines at most one block holds data and event type and ID are still the same when it is dispatched, with the first line taken away behind a byte order mark |
| `SseExact.MarksRewritten` | internal/transport/sse.go:160-186 | For every text, a client splits the rewritten text into exactly the lines not marked as dropped |
| `SseMeaning.SigningPreservesMeaning` | internal/transport/sse.go:157-186 | A complete stream without CR CR LF dispatches the same events signed and unsigned if and only if it does not start with a byte order mark in front of a line that is heard |
| `SseMeaning.SignedStreamMeaning` | internal/transport/sse.go:160-186 | For every stream at all, the signed one reads as the stream with CR LF made LF and a blank line added |
| `SseMeaning.BomLosesData` | internal/transport/sse.go:160-186 | A stream whose event is lost by signing |
| `SseMeaning.CrCrLfMergesEvents` | internal/transport/sse.go:157-186 | A stream with a lone CR in front of a CR LF whose two events signing merges |
| `SseMeaning.LfOrCrLfOnly` | internal/transport/sse.go:157-163 | Streams with LF or CR LF line ends satisfy the hypothesis of the main result |
| `SseMeaning.SignSucceeds` | internal/transport/sse.go:160-186 | Signing never fails on a plain initial cursor |
| `SseMeaning.CursorValid` | internal/transport/sse.go:188-225 | A stream cursor is valid if and only if the initial one has no line end, decimal wrap-around included |
| `SseParts.CursorsDiffer` | internal/transport/sse.go:188-196 | No two events of a stream share a cursor, wrap-around included, below 2^64 events |
| `SseParts.NormalizeExactly` | internal/transport/sse.go:74-90 | Which line feeds are added to an event |
| `SseParts.BlankExactly` | internal/transport/sse.go:173-175 | Which blocks of ASCII text are skipped (`BlankBeyondAscii` for the rest) |
| `SseParts.ParsedFrame` | internal/transport/sse.go:117-143 | What the frame parser accepts ends in a complete event, with a usable cursor, a hash and a signature |
| `SseParts.CrLfLine` | internal/transport/sse.go:117-143 | A metadata line may end in LF or CR LF |
| `SseChain.FrameParses` | internal/transport/sse.go:117-143 | A framed event and its metadata are read back if and only if the event's first line is not a reserved comment |
| `SseChain.SignedStreamRoundTrip` | internal/transport/sse.go:56-143 | Splitting, parsing and verifying the frames of any well-formed events returns the events in order and ends at the signer's hash |
| `SseChain.SignSSEStreamRoundTrip` | internal/transport/sse.go:160-186 | The same for the output of the stream signer, with its own cursors: every event comes back as the signer rewrites it, and unchanged if it holds no CR LF |
| `SseChain.VerifiedIsChainHash` | internal/transport/sse.go:92-115 | What a verifier accepts, frame by frame, is the hash chain of the events it accepted |
| `SseChain.ChainBindsHistory` | internal/transport/sse.go:198-207 | Equal-length chains from one start with one end are identical, or the hash collides at a named link, provided the hash input tells their links apart: no NUL in cursors, or valid cursors and no ambiguous link in one of the chains |
| `SseChain.VerifiedChainsAgree` | internal/transport/sse.go:92-115 | The same of what a verifier accepts: against a verified chain without ambiguous links, any other verified chain with that start, length and last hash is the same or exhibits a collision |
| `SseChain.AcceptedEventWasSigned` | internal/transport/sse.go:92-115 | If only logged texts verify, every event a verifier accepts was logged with that very cursor, event and hash, unless its text has a second reading |
| `SseChain.AcceptedLinksWereSigned` | internal/transport/sse.go:92-115 | The same of every link of an accepted chain, at its place in the chain |
| `SseChain.VerifyExactly` | internal/transport/sse.go:92-115 | When an event verifies: usable metadata, the hash of the chain so far, and a decoded 64-byte signature that verifies over the signing text |
| `SseChain.OtherReadingExactly` | internal/transport/sse.go:209-218 | A signed text belongs to another cursor, hash and event as well if and only if it has two NULs 33 places apart somewhere else, with nothing but a cursor in front |
| `SseChain.AmbiguousExactly` | internal/transport/sse.go:198-225 | A valid cursor and event have another valid pair with the same hash input if and only if the cursor has a NUL behind its first character or the event a NUL in front of its first line end |
| `SseChain.NulCursorIsAmbiguous` | internal/transport/sse.go:198-225 | An instance: two valid cursors, two events, one hash |
| `Sse.SSEEventSigner.Sign` | internal/transport/sse.go:56-72 | The metadata and the advanced hash, or an error that leaves the hash alone |
| `Sse.SSEEventSigner.Frame` | internal/transport/sse.go:74-90 | The frame text with its missing line ends added, and the advanced hash |
| `Sse.ParseSignedSSEFrame` | internal/transport/sse.go:117-143 | The line loop computes the recursive parser, on malformed frames too |
| `Sse.SignSSEStream` | internal/transport/sse.go:160-186 | The loop over the blocks computes the chained stream and its last hash |
| `Quoting.StrconvLawful` | internal/transport/http_signature.go:202-204 | strconv.Quote and Unquote, with every escape, quote form and UTF-8 case, on every byte string: quoted text is read back, cut short it is not, and it shows blanks, semicolons and parentheses exactly where the text has them and line ends nowhere |
| `SignatureInput.ParsePrint` | internal/transport/http_signature.go:199-280 | Both profiles, all metadata: parsing the printed parameters gives the metadata back if and only if it is safe |
| `SignatureInput.ParsedSurvives` | internal/attachment/http_signature.go:239-284 | Both profiles, any text: metadata the parser returned survives a further print and parse if and only if no component holds a blank or closing parenthesis and neither key id nor nonce a semicolon |
| `SignatureInput.EscapedSemicolonIsLost` | internal/transport/http_signature.go:252-275 | For all safe metadata, writing the nonce as an escaped semicolon is accepted and gives metadata that does not survive |
| `SignatureInput.PrintBinds` | internal/transport/http_signature.go:199-205 | Printed parameters determine components, times, key id and nonce, for all metadata |
| `SignatureInput.ParseParams` | internal/transport/http_signature.go:238-280 | The two parser loops compute the recursive parser |
| `SignatureInput.PrintParams` | internal/transport/http_signature.go:199-205 | The printer's loop computes the printed text |
| `SignatureInput.SameComponents` | internal/transport/http_signature.go:282-292 | The loop decides equality |
| `QuotingForms.QuotesAscii` | internal/transport/http_signature.go:202-204 | What strconv.Quote writes for each kind of ASCII character |
| `QuotingForms.ParsedIsComplete` | internal/attachment/http_signature.go:239-284 | Both profiles: parsed metadata names its key and nonce and has its times |
| `QuotingForms.BlankIgnored` | internal/transport/http_signature.go:252-275 | White space of any kind in front of a parameter makes no difference |
| `HttpSignature.SignThenVerify` | internal/transport/http_signature.go:50-165 | Requests and responses of both profiles: what is signed is accepted by a verifier, and yields the signer's nonce, if and only if it is the party and target signed for and the clock is within the skew (five minutes by default), for blobs also before the expiry and within five minutes of creation |
| `HttpSignature.SignedExactly` | internal/transport/http_signature.go:50-74 | What signing writes: digest, agent, target on requests, and the two headers under their label; no other part of the message |
| `HttpSignature.VerifyExactly` | internal/attachment/http_signature.go:76-116 | When a message is accepted, given what its headers parse to, and when it is refused for its body's digest |
| `HttpSignature.ReadSignatureExactly` | internal/transport/http_signature.go:226-235 | When a signature header is read: its text between one colon on each side, or within any number of them in the blob profile (`TrimColonsExactly`), decodes to 64 bytes |
| `HttpSignature.AcceptedWasSigned` | internal/transport/http_signature.go:76-113 | Whatever its header text, what is accepted was signed: same kind, same covered values, same body digest, same nonce; its creation time lies within the skew of the clock, and its parties and target are the expected ones |
| `HttpSignature.AcceptedBlobReply` | internal/attachment/http_signature.go:118-146 | A blob reply is vouched for in the profile its label selects |
| `HttpSignature.SignedBlobReplyAccepted` | internal/attachment/http_signature.go:118-146 | A blob reply signed in either profile is accepted in time, and yields its nonce |
| `HttpSignature.CoveredExactly` | internal/transport/http_signature.go:183-197 | Two messages of one kind have equal covered values if and only if the fields of that kind are equal, one by one |
| `HttpSignature.BaseBinds` | internal/transport/http_signature.go:183-197 | Equal signature bases are of one kind with equal values and equal parameters, across all four kinds and for all metadata |
| `HttpSignature.StreamTextIsElsewhere` | internal/transport/sse.go:209-218 | The texts signed for stream events are no signature bases, so a key may sign both |
| `Ranges.PrintedRangeParses` | internal/attachment/http_signature.go:148-175 | The receiver's Range header is read back exactly when the server may serve it |
| `Ranges.ParsedRangeSpells` | internal/attachment/http_signature.go:148-171 | Any header is accepted if and only if it spells one range, inside the representation and within the length allowed; the last byte may be left out |
| `Upload.UploadUnderCrashes` | internal/attachment/service.go:104-175 | With crashes between any two writes, the part file starts with the accepted bytes and never exceeds the size, and what is published is exactly the accepted bytes |
| `Upload.ReadRangeExact` | internal/attachment/service.go:212-241 | Every range read is that slice of the accepted bytes |
| `UploadLife.ResumableExactly` | internal/attachment/service.go:75-175 | After any run with crashes, an unfinished upload can still be completed with a given continuation of the announced size and digest if and only if its part file is there and it was not cancelled |
| `UploadLife.OpenUploadCompletes` | internal/attachment/service.go:104-175 | After any run with crashes, an open upload takes the rest of its bytes in any chunks within the limit and publishes accepted bytes and rest |
| `UploadLife.InitExactly` | internal/attachment/service.go:75-102 | When an upload is opened, and the metadata and empty part file it leaves |
| `UploadLife.PutExactly` | internal/attachment/service.go:104-144 | When a chunk is taken: open upload, right offset, chunk limit, announced size; the accepted bytes grow by it, and no other blob changes |
| `UploadLife.CompleteExactly` | internal/attachment/service.go:146-175 | When completion succeeds, and that it publishes the accepted bytes |
| `UploadLife.CancelExactly` | internal/attachment/service.go:243-263 | When cancelling succeeds, and that the part file goes |
| `UploadLife.ReadExactly` | internal/attachment/service.go:212-241 | In every run, when a range of a blob is read, and that it is that slice of the accepted bytes |
| `UploadService.Service.InitBlob` | internal/attachment/service.go:75-102 | Metadata and empty part file, or the error; the part-file invariant is kept and no other blob changes |
| `UploadService.Service.Put` | internal/attachment/service.go:104-144 | An accepted chunk extends the accepted bytes, which the part file then starts with; otherwise nothing changes; no other blob changes |
| `UploadService.Service.CompleteBlob` | internal/attachment/service.go:146-175 | What is published is exactly the accepted bytes, `Size` of them, with the announced digest; no other blob changes |
| `UploadService.Service.CancelBlob` | internal/attachment/service.go:243-263 | Cancelled and the part removed, or the error; no other blob changes |
| `Download.ResumableTransfer` | internal/attachment/receiver.go:69-163 | After any interrupted calls the part is a prefix of the blob; the next whole call publishes the blob byte for byte if and only if the receiver's chunk or the blob fits the server's chunk, and otherwise nothing is ever received |
| `Download.RoundsPrefix` | internal/attachment/receiver.go:93-145 | Through losses and torn writes the part never shrinks and stays a prefix |
| `Download.UploadedThenDownloaded` | internal/attachment/receiver.go:69-163 | What the receiver publishes is what the owner's service accepted, over all upload runs |
| `Download.HonestOwner` | internal/gateway/blob.go:51-82 | On a granted, completed blob the endpoint answers every Range header as the owner of the accepted bytes |
| `Download.PublishedMatches` | internal/attachment/receiver.go:69-163 | Whatever the owner sends, a call that ends well leaves a published file of the announced size and digest, and one that does not publishes nothing and keeps the bytes held |
| `Download.ResumesExactly` | internal/attachment/receiver.go:69-163 | From any part file, an uninterrupted call against the honest owner succeeds if and only if the part is a prefix of the blob; a part that fails its digest fails every later call |
| `Download.InterruptedKeeps` | internal/attachment/receiver.go:93-145 | A call cut off after n answered requests holds exactly the bytes they brought |
| `Download.FetchedInRange` | internal/attachment/receiver.go:120-135 | Content counts only in answer to the very range asked for |
| `Download.ServedExactly` | internal/gateway/blob.go:51-82 | When the endpoint serves a range: spelled, readable, and of the size and digest the grant names |
| `Download.Receiver.ReceiveBlob` | internal/attachment/receiver.go:69-163 | The loop on the files computes the modelled transfer |
| `Capability.OneSessionPerChallenge` | internal/management/handler.go:329-352 | With exchanges split into their three steps, each challenge yields at most one session, for its own agent and methods, on a signature under the key read |
| `Capability.RotationEndsSessions` | internal/management/handler.go:354-406 | A session minted from a registration read before a rotation fails with a generation mismatch at every later time, if each rotation of the agent replaces the generation it read |
| `Capability.AcceptedSessionHasCurrentKey` | internal/management/handler.go:388-406 | An accepted session was earned with a signature under the key that is registered now, under the same condition |
| `Capability.OverlapKeepsOldKey` | internal/management/handler.go:354-386 | A run with two overlapping rotations after which a session earned under the first new key is accepted though the second is registered |
| `Capability.AcceptedExactly` | internal/capability/capability.go:100-116 | In every run, a session in the book was minted on a challenge taken within two minutes of being handed out, and is accepted exactly by its agent, for a listed method, at the generation read, until fifteen minutes after it was stored |
| `Capability.ExchangeCompletes` | internal/management/handler.go:305-352 | From any state, a challenge asked for, signed under the registered key and taken within two minutes gives a session that is accepted for fifteen minutes |
| `Capability.ExchangeFails` | internal/management/handler.go:329-352 | An exchange whose challenge is unknown, foreign, out of time or wrongly signed makes no session, and the challenge is gone |
| `Capability.RotateExactly` | internal/management/handler.go:354-386 | The key, the next generation and the sessions dropped; nothing else changes |
| `Capability.ChallengeExactly` | internal/management/handler.go:305-312 | A challenge is handed out exactly to an agent that shows its registration token and has a capability |
| `Capability.ValidateSession` | internal/capability/capability.go:100-116 | The checks in order, and the scan of the method list (`AcceptedExactly` says what they amount to over runs) |
| `Capability.Handler.CapabilityChallenge` | internal/management/handler.go:305-327 | The challenge and where it is kept, or the refusal |
| `Capability.Handler.CapabilityExchange` | internal/management/handler.go:329-352 | The challenge is gone whatever happens; a session only if every check passes, of the generation registered now; sessions never get ahead of their registrations |
| `Capability.Handler.RotateCapability` | internal/management/handler.go:354-386 | A strictly later generation, exactly the agent's sessions dropped, every other agent's row and sessions unchanged |
| `Capability.Handler.AuthenticateMethod` | internal/management/handler.go:388-406 | Accepts exactly the valid session or, without one, the registration token |
| `Adapter.AtMostOnce` | adapters/snw-agent-link-codex/snw_agent_link_codex/service.py:179-275 | In every run with sends, attaches, syncs and crashes in between, if syncs list known messages under their recorded context or a bound one, the receive path injects each (agent, message) at most once, after its row, on a recorded thread, and starts and binds at most one thread per (agent, context) |
| `Adapter.OneActiveBinding` | adapters/snw-agent-link-codex/snw_agent_link_codex/storage.py:278-304 | At most one active binding per (agent, context), and no earlier binding row is lost or changed in identity |
| `Adapter.RetryIsDuplicate` | adapters/snw-agent-link-codex/snw_agent_link_codex/service.py:198-213 | Once a receive has reported a thread, a retry changes nothing and reports that thread as a duplicate |
| `AdapterLife.MovedIsRepeated` | adapters/snw-agent-link-codex/snw_agent_link_codex/service.py:114-153 | An injected message that is listed under another context and received there is injected again if and only if that context has no thread yet |
| `AdapterLife.ReceivesExactly` | adapters/snw-agent-link-codex/snw_agent_link_codex/service.py:215-275 | A receive not answered before: the row in full, the thread used or started and bound, one injection with the message's body, the reply, and nothing else changed |
| `AdapterLife.StoresAnyway` | adapters/snw-agent-link-codex/snw_agent_link_codex/service.py:219-275 | Without a thread the message is stored all the same, nothing is bound or injected, and a later receive can finish |
| `AdapterLife.EndsEarly` | adapters/snw-agent-link-codex/snw_agent_link_codex/service.py:198-217 | When a receive is refused or answered as a duplicate, and that nothing is written then |
| `AdapterLife.InjectsExactly` | adapters/snw-agent-link-codex/snw_agent_link_codex/service.py:179-275 | Which receives inject their message |
| `AdapterLife.ReceiveRuns` | adapters/snw-agent-link-codex/snw_agent_link_codex/service.py:179-275 | At any point of any run with the lock free, an uninterrupted receive leaves the world so described and the lock free |
| `AdapterLife.SendRuns` | adapters/snw-agent-link-codex/snw_agent_link_codex/service.py:43-96 | At any point of any run, a send binds its context and records its message as sent; one that fails in between leaves the binding |
| `AdapterLife.BindExactly` | adapters/snw-agent-link-codex/snw_agent_link_codex/storage.py:278-304 | Every row after a bind, with turn and times |
| `Adapter.BindKeepsWellBound` | adapters/snw-agent-link-codex/snw_agent_link_codex/storage.py:278-304 | The bind transaction keeps both uniqueness constraints |
| `Adapter.BindActivates` | adapters/snw-agent-link-codex/snw_agent_link_codex/storage.py:278-314 | After a bind, the active thread of the context is the one just bound |
| `Adapter.ActKeeps` | adapters/snw-agent-link-codex/snw_agent_link_codex/service.py:197-275 | Every step of a receive keeps the invariant and what the rest of the receive relies on |
| `AdapterService.HistoryKept` | adapters/snw-agent-link-codex/snw_agent_link_codex/storage.py:316-322 | In every run a context's list of threads only grows at its end |
| `AdapterService.HistoryExactly` | adapters/snw-agent-link-codex/snw_agent_link_codex/storage.py:316-322 | A history is the rows of its context, in order |
| `AdapterService.MailboxStore.BindContext` | adapters/snw-agent-link-codex/snw_agent_link_codex/storage.py:278-304 | The bindings after the call, or unchanged when a name is empty |
| `AdapterService.MailboxStore.ActiveBinding` | adapters/snw-agent-link-codex/snw_agent_link_codex/storage.py:306-314 | The only active row of the context, or none if there is none |
| `AdapterService.MailboxStore.BindingHistory` | adapters/snw-agent-link-codex/snw_agent_link_codex/storage.py:316-322 | Exactly the context's rows, in order |
| `AdapterService.MailboxStore.PutMailboxItem` | adapters/snw-agent-link-codex/snw_agent_link_codex/storage.py:377-431 | Insert with defaults, or overwrite of content and task only |
| `AdapterService.MailboxStore.MarkAttached` | adapters/snw-agent-link-codex/snw_agent_link_codex/storage.py:511-526 | All messages marked or, if one is missing, none |
| `AdapterService.Service.ReceiveMessage` | adapters/snw-agent-link-codex/snw_agent_link_codex/service.py:179-275 | The method, branch by branch, is the step machine run without interruption |
| `AdapterService.Service.AttachInbox` | adapters/snw-agent-link-codex/snw_agent_link_codex/service.py:99-112 | Nothing on a missing or empty selection; otherwise items are handed over and bound in order up to the one that raises, and messages are marked only if none does |
| `NonceWindow.WindowIsNewest` | adapters/snw-agent-link-codex/snw_agent_link_codex/relay.py:93-105 | In every run each live table holds exactly the last min(n, 4096) of its n insertions, in order, without repetition |
| `NonceWindow.WindowAgreesWithHistory` | adapters/snw-agent-link-codex/snw_agent_link_codex/relay.py:73-105 | All answers of a run equal those of an unbounded history if and only if no call reuses a nonce the window has lost |
| `NonceWindow.ShortRunsAgree` | adapters/snw-agent-link-codex/snw_agent_link_codex/relay.py:73-105 | The two never differ within 4098 calls |
| `NonceWindow.LongerRunsDiffer` | adapters/snw-agent-link-codex/snw_agent_link_codex/relay.py:73-105 | A run of 4099 calls in which they do |
| `NonceWindow.CheckExactly` | adapters/snw-agent-link-codex/snw_agent_link_codex/relay.py:107-119 | A check succeeds exactly on a token granted by an earlier call of the run and not since replaced, revoked or used after its time, for its agent, up to and including the second it runs out |
| `NonceWindow.VerifyExactly` | adapters/snw-agent-link-codex/snw_agent_link_codex/relay.py:73-105 | Every answer to a nonce, read off the calls before it: duplicate, refused for other claims, new, other agent, invalid |
| `NonceWindow.IngressCapability.VerifyNonce` | adapters/snw-agent-link-codex/snw_agent_link_codex/relay.py:73-105 | Table and answer after each branch, the dropped expired token included; a duplicate is reported exactly for a live nonce with the same claims; tables stay within the window and no other token changes |
| `NonceWindow.IngressCapability.CheckToken` | adapters/snw-agent-link-codex/snw_agent_link_codex/relay.py:107-119 | Table and answer after each branch |
| `NonceWindow.IngressCapability.IssueToken` | adapters/snw-agent-link-codex/snw_agent_link_codex/relay.py:40-52 | A fresh, empty capability, or the refusal |
| `NonceWindow.IngressCapability.RegisterToken` | adapters/snw-agent-link-codex/snw_agent_link_codex/relay.py:54-67 | A fresh, empty capability, or the refusal |

## Left out

- Ed25519, SHA-256, HMAC, AES-GCM, base64, JSON and UUID internals: function values with stated laws, or inputs.
- SQLite, the file system, HTTP and TLS: tables are maps and sequences, files are byte strings, messages are records; stored payloads are assumed to decrypt.
- Tailscale identity, IPC listeners, daemon start-up, identity files, Windows service, A2A SDK forwarding, app-server and MCP plumbing, installer, doctor and scripts: thin wrappers or I/O.
- Admission service and attachment garbage collection: nothing in the daemon calls them.
- Pairing calls are atomic steps; trimming of addresses and node ids, and how an endpoint text is built from an address, are not modelled.
- FindPairingSession: the newest session of a pair is an input, since equal times leave the choice open; accepting by id therefore accepts whatever session that is.
- The delivery worker is one worker; the lease that would allow several does not exist in the source.
- Requests without a message id are forwarded without deduplication, and requests without a source agent are not written to the inbox; the deduplication model has neither.
- The look-up and its reply are one step in the deduplication model; the key epoch is constantly 0 there as in the source.
- The `retry` field of SSE and reconnection: they dispatch no event.
- unicode.IsPrint beyond ASCII is a parameter, of which only that it rejects white space is used.
- HttpSignature.AcceptedWasSigned: no covered value holds a line end, which net/http refuses in header fields and request lines; that pairing envelopes, being JSON objects, are no bases either is part of what `Unforgeable` says.
- HttpSignature.SignThenVerify: takes the target URI, authority, path and query as text both sides agree on; how net/http renders them, and times beyond what time.Unix represents, are not modelled.
- The value a float64 beyond int64 converts to is an input of the back-off, not positive or the largest int64, as the platforms do it.
- Canonical challenge bytes: the order-independent encoding of the method list is part of the abstract verify function.
- Adapter: detach_thread, read marks, task cancellation, summaries and thread snapshots. Nothing in the adapter calls detach_thread; sync_inbox is modelled message by message, without the decoding of bodies.
- Blob nonces claimed by the gateway, and replayed blob responses, are not modelled.
