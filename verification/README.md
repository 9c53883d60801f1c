# Verified model of a mail transfer agent

This project models the state machines and transformations at the core of the
mail transfer agent kuroshio-mta (written in Go) in Dafny and proves what they
are meant to guarantee. Network, DNS, clocks and cryptography are arbitrary
inputs, so every result holds whatever they answer.

`dafny verify dfyconfig.toml` checks the whole project.

## What is modelled

- `QueueStore`: the durable queue. Directories are a map from (directory, id)
  to file; each rename or remove is one step; an operation is a plan of steps
  that may stop after any of them. Admission with reservation and hysteresis.
- `QueueCrashes`: runs of the queue whose operations stop anywhere and whose
  process restarts, and what the limits still guarantee.
- `Dispatcher`, `Lmtp`, `DeliveryRuns`: one delivery round of a message through
  pause, throttle, reputation, suppression, single and LMTP delivery to the
  queue operation it ends with, and whole runs of rounds on the queue.
- `Shaping`: token buckets with leases and eviction of idle groups. Levels are
  scaled integers (tokens times the nanoseconds of a minute), so rounding plays
  no part.
- `FairQueue`: weighted round robin over classes, rotation over tenants, caps.
- `SmtpPool`: the connection pool, interleaved at single channel operations and
  mutex sections, and its methods as runs of those interleavings.
- `TagLists`, `ArcSets`, `ArcVerifier`, `ArcSealer`, `ArcChain`: the ARC sealer
  against the ARC verifier, down to the text of the headers.
- `DataTransfer`: dot-stuffing against the DATA reader, and the relaxed body
  that signatures digest.
- `Dkim2Recipes`: DKIM2 recipes and canonical headers; Go's map iteration order
  is an explicit argument.
- `SmtpSession`: the SMTP command loop.
- `Spf`: the recursive SPF evaluator; each query issued takes the next answer of
  an arbitrary tape.
- `HttpInjection`: claim, enqueue and commit of an injected message; any write
  may fail, may take effect and be reported as failed, or be the last thing
  before a crash. `InjectionRuns` puts it on top of `QueueStore`.
- `MtaSts`: the policy cache, its rollover confirmation and its back-off.
- `Common`, `Text`, `Ordering`: shared vocabulary. Text is a sequence of
  symbols, each a code point or a stray byte.

Code that updates state is a class whose methods are proved against functions
on its value; the theorems are about those functions.

## Where a promise needs a condition

- One place per recipient needs distinct recipients; the SMTP server accepts a
  recipient twice (`ExactlyOnePlaceNeedsDistinctRecipients`).
- Pending messages, and their bytes counted once, stay within the limits on every
  run. Pending files do so without interruptions; an interrupted move leaves a
  copy, and the files are within the limits exactly when the copies fit into
  what is free (`FilesWithinIffCopiesFit`, `OneInterruptionOneOver`).
- After a capacity rejection the first admission sees a drained queue exactly
  while the process does not restart: the paused flag is kept in memory only
  (`FirstAdmissionIsDrained`, `RestartDecides`, `RestartForgetsThePause`).
- The LMTP result map covers every recipient only of a batch with one route
  (`DeliverBatch`), which every batch of the dispatcher has
  (`BatchesShareARoute`). A recipient named twice shares one entry
  (`RepeatedRecipientSharesItsEntry`).
- A sealed ARC chain verifies exactly when the last copied authentication result
  that reads as an `i` tag, if there is one, names the next instance; another
  number breaks the chain (`SealingExtends`, `CopiedTagDecides`,
  `CopiedTagExists`).
- A blank line made of carriage returns inside the header moves the start of the
  body at the next hop (`SplitSurvivesHop`, `RawHeaderCanBreak`). No message that
  came in through the DATA reader has one (`StoredHeaderIsWhole`).
- The SPF query limit ends in its permerror exactly when it is met outside the
  address lookups of `mx` and `ptr` (`LimitIsPermError`,
  `LimitInsideMxIsPassedOver`), so always if no record has such a term
  (`LimitWithoutHostLoops`). The void limit behaves alike
  (`VoidsArePermError`, `VoidsInsideMxArePassedOver`).
- Every eligible tenant of a class gets its turn within one round while the set
  of eligible tenants stays the same (`EachTenantOnce`); a set that changes can
  starve one (`ChangingTenantsStarveOne`).
- A success answer to an HTTP request names the payload of that request while its
  record lives; after expiry it can name the old one
  (`ExpiryNamesAnOldRecord`).
- Lookups of one MTA-STS domain that overlap can replace a policy id without
  confirmation (`OverlapSkipsConfirmation`), and the back-off exceeds the
  doubling formula by one where that lands one short of the maximum
  (`RetryDelayIsDoubling`). The shipped delays of one second and five minutes
  never do (`DefaultDelaysAreDoubling`); it takes other settings.

## Model

| member | source | states |
|---|---|---|
| `QueueStore.LowMarkIsFloor` | internal/queue/capacity.go:86-91 | the split watermark formula equals floor(max*low/100), its intermediates stay below max + 9801, and the mark is below max |
| `QueueStore.MoveStoppedAnywhere` | internal/queue/store.go:189-281 | after any prefix of a move's file-system steps the message is still in a state directory, every copy is the old file or the new record, and no other message is touched |
| `QueueStore.MoveCompleted` | internal/queue/store.go:327-337 | a completed move leaves its target and no other pending copy, whatever copies there were before |
| `QueueStore.TransitionNeverLoses` | internal/queue/store.go:142-281 | AckSent, Retry, Defer, Fail and RequeueFromState keep the message in at least one state directory at every intermediate step |
| `QueueStore.SuccessLeavesOnlyTheTarget` | internal/queue/store.go:189-281 | a successful AckSent or Fail leaves no pending copy and its final record; a successful Retry or Defer leaves exactly the retry record with its new fields, whatever duplicates a crash left |
| `QueueStore.RedoAfterCrash` | internal/queue/store.go:189-281 | repeating a transition that a crash interrupted anywhere completes it with one pending copy at most |
| `QueueStore.ExecLeavesOthers` | internal/queue/store.go:58-281 | an operation on one id changes no file of another id |
| `QueueStore.ExecKeepsOneHome` | internal/queue/store.go:58-281 | every crash-free operation keeps each id in at most one directory |
| `QueueStore.CrashFreeRunsKeepOneHome` | internal/queue/store.go:58-281 | so does every crash-free run of operations |
| `QueueStore.ExecStaysWithinLimits` | internal/queue/capacity.go:47-125 | an operation whose steps are all performed keeps pending files and bytes within MaxMessages and MaxBytes, from any disk within them, duplicates included; a rescheduled record must not outgrow the pending one it was read from |
| `QueueStore.RunsStayWithinLimits` | internal/queue/capacity.go:47-125 | the same in every state that a run without interruptions reaches, every rescheduled record being the one read from the queue |
| `QueueStore.PausedUntilDrained` | internal/queue/capacity.go:74-125 | admission while paused implies drained usage and a good disk probe; a rejection pauses, an admission resumes |
| `QueueStore.FirstAdmissionAfterRejectionIsDrained` | internal/queue/capacity.go:74-125 | after a capacity rejection the first admission, after any other operations that run to their end in the same process, sees both usages at or below the low watermark and enough disk |
| `QueueStore.Store.Usage` | internal/queue/capacity.go:47-72 | the scan returns exactly the number and the bytes of pending records, or an error if a directory cannot be read |
| `QueueStore.Store.Admit` | internal/queue/capacity.go:74-125 | the verdict and the new paused flag are those of the admission rule |
| `QueueStore.Store.RemovePendingExcept` | internal/queue/store.go:327-337 | the removes performed are a prefix of the planned ones, and success means all of them |
| `QueueStore.Store.AckSent` | internal/queue/store.go:189-210 | the disk is the old one after a prefix of the planned steps; the outcome says whether all were performed |
| `QueueStore.Store.Reschedule` | internal/queue/store.go:212-256 | the same for Retry and Defer: the record in the retry directory first, then the removes |
| `QueueStore.Store.Fail` | internal/queue/store.go:258-281 | the same for Fail: the dead letter first, then the removes |
| `QueueStore.Store.Enqueue` | internal/queue/store.go:58-81 | a known id changes nothing; otherwise the admitted record is written once |
| `QueueStore.Store.RequeueFromState` | internal/queue/store.go:142-187 | a requeue is admitted like a new message and writes before it removes |
| `QueueStore.Store.Sweep` | internal/queue/store.go:283-325 | poisoned files and expired holds leave the queue except those that cannot be moved; a poisoned one is then passed over, a hold ends the scan with an error; otherwise exactly the due records are returned |
| `QueueCrashes.UsageSplits` | internal/queue/capacity.go:47-69 | pending files are the pending messages, each counted by its largest copy, and the further copies; so are the bytes |
| `QueueCrashes.EventStaysWithin` | internal/queue/capacity.go:47-125 | wherever an operation stops, and whether or not the process restarts, the number of pending messages and their bytes counted once stay within MaxMessages and MaxBytes, if a rescheduled record does not outgrow the pending one it was read from |
| `QueueCrashes.MessagesStayWithinLimits` | internal/queue/capacity.go:47-125 | the same in every state of every run with interruptions and restarts, every rescheduled record being the one read from the queue |
| `QueueCrashes.FilesWithinIffCopiesFit` | internal/queue/capacity.go:47-69 | the files too are within the limits if and only if the copies left behind fit into what the messages leave free |
| `QueueCrashes.EventSurplus` | internal/queue/store.go:142-337 | an operation that runs to its end never adds to the files beyond one per message, over all directories; an interrupted one adds at most one |
| `QueueCrashes.FilesExceedByInterruptionsOnly` | internal/queue/capacity.go:47-125 | so the pending files exceed MaxMessages by at most the copies at the start and one for every interrupted operation |
| `QueueCrashes.BytesExceedByInterruptionsOnly` | internal/queue/capacity.go:47-125 | the pending bytes exceed MaxBytes by at most the largest pending file for each of those copies, and no pending file exceeds it |
| `QueueCrashes.OneInterruptionOneOver` | internal/queue/store.go:212-234 | the bound is met: with MaxMessages 1, a Retry stopped after its write leaves two pending files |
| `QueueCrashes.FirstAdmissionIsDrained` | internal/queue/capacity.go:74-125 | after a capacity rejection the first admission sees a drained queue, wherever the operations in between stopped, as long as the process does not restart |
| `QueueCrashes.RestartDecides` | internal/queue/store.go:18-26 | the condition is exact: an operation that fits the limits while the queue is not drained is admitted right after a rejection if and only if the process restarted |
| `QueueCrashes.RestartForgetsThePause` | internal/queue/store.go:18-26 | such an input: ten bytes allowed, five pending, six refused, restart, one admitted above the low mark |
| `Dispatcher.SummaryUpdate` | internal/worker/dispatcher.go:186-429 | settling a queued recipient, in any order, adds exactly its disposition to what the round has collected |
| `Dispatcher.SummaryMeaning` | internal/worker/dispatcher.go:186-429 | the collected slices and flags mean what the dispositions of all recipients say |
| `Dispatcher.ShouldFail` | internal/worker/dispatcher.go:609-647 | true exactly when attempts or age are exhausted, a status is unknown, or only permanent replies are left; on the errors a round collects, exactly exhaustion or an unknown status |
| `Dispatcher.Decide` | internal/worker/dispatcher.go:437-505 | the one queue operation and its recipient list follow from the dispositions |
| `Dispatcher.FirstRound` | internal/worker/dispatcher.go:156-405 | each recipient's disposition after pause, throttle, reputation, suppression and single delivery, and the LMTP batches formed by batch key |
| `Dispatcher.BatchesShareARoute` | internal/worker/dispatcher.go:323-326 | all recipients of a batch the dispatcher forms have a domain and the same LMTP route |
| `Dispatcher.DeliverRoute` | internal/worker/dispatcher.go:418-429 | the client's result map has an entry for every recipient of such a batch, the one its dialogue determines, so no missing entry is read as a delivery |
| `Dispatcher.DeliverBatches` | internal/worker/dispatcher.go:406-436 | every batch goes to the LMTP client, and every batched recipient gets the disposition of its own answer |
| `Dispatcher.BatchDecides` | internal/worker/dispatcher.go:418-429 | a batched recipient ends up delivered if and only if no early error stopped the batch and the last final reply read for it is 2xx |
| `Dispatcher.OwnReplyDecides` | internal/worker/dispatcher.go:418-429 | with distinct recipients that is the reply at the recipient's own position |
| `Dispatcher.HandleMessage` | internal/worker/dispatcher.go:137-505 | a whole round: every disposition, a batched recipient delivered exactly when its batch got it through, the verdict and the recipients left |
| `Lmtp.PositionsAreExact` | internal/delivery/lmtp.go:60-81 | the accepted positions are exactly those accepted at RCPT, in order, so the k-th final reply belongs to the k-th of them |
| `Lmtp.DeliverLmtp` | internal/delivery/lmtp.go:15-123 | the result map has an entry for every recipient: its last final reply read, else its refusal, else the error that ended the dialogue (section 4.2 of RFC 2033) |
| `Lmtp.NilIffGotThrough` | internal/delivery/lmtp.go:60-123 | an entry is nil if and only if the recipient was accepted at RCPT and the last final reply read for it is 2xx |
| `Lmtp.DistinctGetThrough` | internal/delivery/lmtp.go:60-123 | with distinct recipients nil marks exactly the positions with a 2xx final reply of their own |
| `Lmtp.RepeatedRecipientSharesItsEntry` | internal/delivery/lmtp.go:103-123 | for a recipient named twice a later 250 hides an earlier 550 |
| `Lmtp.ReadFinals` | internal/delivery/lmtp.go:103-123 | the final replies are matched to the accepted recipients by position, and one that cannot be read fails those still without an answer |
| `Lmtp.DeliverBatch` | internal/delivery/smtp_client.go:306-376 | the map covers every recipient exactly for the batches with one route (or on early exits), with the answers of the dialogue; a batch of mixed routes would leave entries out |
| `DeliveryRuns.DispositionsPartition` | internal/worker/dispatcher.go:186-436 | after a round every recipient is delivered, dropped or waiting, with multiplicity |
| `DeliveryRuns.RoundMovesTheRecord` | internal/worker/dispatcher.go:437-505 | the verdict's queue operation moves the one record to the place and content the verdict names |
| `DeliveryRuns.RoundKeepsData` | internal/worker/dispatcher.go:430-505 | a round hands the store the payload of the pending record, as the capacity results ask |
| `DeliveryRuns.StepConserves` | internal/worker/dispatcher.go:137-505 | a round or an operation on other messages keeps delivered + dropped + pending + dead-lettered equal to the original recipients |
| `DeliveryRuns.RunsConserveRecipients` | internal/worker/dispatcher.go:137-505 | the same over any run; pending only shrinks, and retries are bounded by MaxAttempts |
| `DeliveryRuns.FreshMessageEndsInExactlyOnePlace` | internal/worker/dispatcher.go:137-505 | for distinct recipients each one ends in exactly one place and a delivered one is not attempted again |
| `DeliveryRuns.AckOnlyWhenNothingRemains` | internal/worker/dispatcher.go:437-505 | AckSent is chosen exactly when no recipient waits |
| `DeliveryRuns.UnknownIsNeverRescheduled` | internal/worker/dispatcher.go:437-505 | a recipient with unknown status enters neither Retry nor Defer |
| `DeliveryRuns.ExactlyOnePlaceNeedsDistinctRecipients` | internal/worker/dispatcher.go:186-505 | every possible round keeps the places apart if and only if the recipients are distinct |
| `DeliveryRuns.RepeatedRecipientSplits` | internal/worker/dispatcher.go:186-505 | the counterexample for a repeated recipient |
| `DeliveryRuns.ProcessMessage` | internal/worker/dispatcher.go:137-505 | the dispatcher with the store and the LMTP client attached performs one of the rounds of the run model, with the dispositions of the round |
| `Shaping.RefillTwice` | internal/shaping/limiter.go:23-37 | refilling at two times is refilling at the later one |
| `Shaping.DelayIsExact` | internal/shaping/limiter.go:38-43 | a token is there after the returned delay and not before |
| `Shaping.IdleFills` | internal/shaping/limiter.go:63-72 | the idle time outlasts a full refill |
| `Shaping.TouchKeepsSound` | internal/shaping/limiter.go:74-127 | token levels stay within the burst and live leases within MaxConnections |
| `Shaping.IdleIsFresh` | internal/shaping/limiter.go:74-127 | an idle group answers and continues as a fresh one |
| `Shaping.AcquireAgrees` | internal/shaping/limiter.go:74-127 | one acquire gives the same answer in the bounded and in the never-evicting limiter unless the bounded one is full |
| `Shaping.EvictionIsUnobservable` | internal/shaping/limiter.go:63-127 | over any run with a monotone clock every answer but the capacity error equals that of a limiter that never evicts |
| `Shaping.RefusalLeavesNoTrace` | internal/shaping/limiter.go:74-127 | a refused acquire spends no token: every later answer is as if it had not happened |
| `Shaping.DelaySatisfiesTheRates` | internal/shaping/limiter.go:38-43 | after the returned delay, undisturbed, both rate checks pass |
| `Shaping.AdmittedWithinBurstPlusRate` | internal/shaping/limiter.go:23-43 | in any interval a group admits at most burst + rate * time messages, and likewise connections |
| `Shaping.MemoryLimiter.Acquire` | internal/shaping/limiter.go:74-127 | the method is the specification's acquire on the whole limiter state |
| `Shaping.MemoryLimiter.Release` | internal/shaping/limiter.go:125-127 | a release removes its lease wherever the group still is |
| `FairQueue.ScanFindsFirst` | internal/worker/fair_queue.go:96-104 | the cursor stops at the first position whose class can be served, after at most one turn |
| `FairQueue.HitsOfATurn` | internal/worker/fair_queue.go:31-38 | any full turn from any cursor meets a class as often as the cycle lists it |
| `FairQueue.ServedIsHits` | internal/worker/fair_queue.go:96-129 | a class that stays open is served once for each of its positions passed, however many batches the selections span |
| `FairQueue.ShareInAnyWindow` | internal/worker/fair_queue.go:96-129 | in any len(classCycle) consecutive selections during which a class is open it is chosen at least its weight |
| `FairQueue.WithoutCapsBufferedIsOpen` | internal/worker/fair_queue.go:99-107 | without caps a class is open exactly when one of its messages is buffered |
| `FairQueue.NothingFoundMeansNothingOpen` | internal/worker/fair_queue.go:96-129 | next answers nil only if no buffered message is eligible |
| `FairQueue.IntakeKeepsEverything` | internal/worker/fair_queue.go:50-57 | fetched messages enter once under their id with a class of the cycle, nothing buffered is replaced, tenants stay bounded |
| `FairQueue.FairQueue.constructor` | internal/worker/fair_queue.go:24-40 | the cycle lists every class exactly as often as its weight |
| `FairQueue.FairQueue.Normalize` | internal/worker/fair_queue.go:74-94 | an unknown tenant beyond the maximum and a class without weight fall back to the default, and the class is always one of the cycle |
| `FairQueue.FairQueue.Serve` | internal/worker/fair_queue.go:102-127 | the tenant whose rank is the cursor modulo the number of eligible tenants, and its earliest message |
| `FairQueue.FairQueue.Offer` | internal/worker/fair_queue.go:99-129 | a class of the cycle is served exactly when it is open, and its cursor then stands after the tenant served |
| `FairQueue.ServingRotates` | internal/worker/fair_queue.go:108-119 | what a class serves, service after service, is a rotation over the eligible tenants of each moment |
| `FairQueue.EachTenantOnce` | internal/worker/fair_queue.go:108-119 | while the same n tenants are eligible each of them is served exactly once in any n consecutive services of the class |
| `FairQueue.ChangingTenantsStarveOne` | internal/worker/fair_queue.go:108-119 | with a changing set a tenant can be eligible at every service for as long as one likes and never be served |
| `FairQueue.FairQueue.Next` | internal/worker/fair_queue.go:96-129 | a selection that advances the class cursor to the first servable class and its tenant cursor past the one served, or nil after a full turn with nothing eligible |
| `FairQueue.FairQueue.Due` | internal/worker/fair_queue.go:42-72 | the batch and the buffer partition what was buffered, caps hold, a short batch leaves nothing eligible, and every selection saw the buffer and counts of its time |
| `SmtpPool.StepHoldsTokens` | internal/delivery/smtp_pool.go:55-139 | every step keeps tokens in total and in each key channel equal to the sessions and goroutines holding them |
| `SmtpPool.StepWithinLimits` | internal/delivery/smtp_pool.go:55-126 | every step keeps connection and idle limits |
| `SmtpPool.StepIdleExact` | internal/delivery/smtp_pool.go:64-126 | idle lists hold exactly the idle sessions, once each, so none is idle and checked out |
| `SmtpPool.StepKeepsInvariant` | internal/delivery/smtp_pool.go:55-171 | one step of any goroutine keeps all of it |
| `SmtpPool.InvariantOnEveryRun` | internal/delivery/smtp_pool.go:55-171 | under every interleaving of get, put, dial failure and Close; a closed pool has no idle session |
| `SmtpPool.ReceivesNeverBlock` | internal/delivery/smtp_pool.go:87-100 | no unconditional channel receive finds its channel empty |
| `SmtpPool.MutexHolderFinishes` | internal/delivery/smtp_pool.go:127-171 | whoever closes sessions under the mutex can finish by its own steps alone |
| `SmtpPool.CheckoutIsARun` | internal/delivery/smtp_pool.go:57-83 | the loop at the head of get is a run of the interleaving model |
| `SmtpPool.CheckoutMeaning` | internal/delivery/smtp_pool.go:57-83 | a session handed out was idle under the key and still good; none only from a closed pool or an emptied list |
| `SmtpPool.PutIsARun` | internal/delivery/smtp_pool.go:109-125 | put is a run of the interleaving model |
| `SmtpPool.CloseIsARun` | internal/delivery/smtp_pool.go:156-171 | Close is the closing event followed by closing steps only |
| `SmtpPool.ConnectionPool.IdleCount` | internal/delivery/smtp_pool.go:148-154 | the sum over the lists is the number of idle sessions |
| `SmtpPool.ConnectionPool.Put` | internal/delivery/smtp_pool.go:109-125 | the session is kept idle exactly when reusable, the pool open, its age and deliveries below the limits and both idle limits not reached; otherwise it is closed with both tokens |
| `SmtpPool.ConnectionPool.Checkout` | internal/delivery/smtp_pool.go:57-83 | the newest idle session still good is handed out, every stale one above it is closed with its tokens |
| `SmtpPool.ConnectionPool.Close` | internal/delivery/smtp_pool.go:156-171 | all idle sessions gone with their tokens, everything else unchanged |
| `TagLists.ReadRendered` | internal/mailauth/dkim.go:124-141 | a tag list as the sealer writes it is read back tag by tag by verifier and sealer |
| `TagLists.StripRendered` | internal/mailauth/dkim.go:234-243 | stripping the b tag from a signed value gives back the text that was signed |
| `TagLists.AtoiItoa` | internal/mailauth/arc.go:60-70 | instance numbers survive writing and reading |
| `ArcSets.InstanceMap` | internal/mailauth/arc.go:60-79 | the map is built exactly for headers numbered 1 to n without repetition, and maps each number to its header |
| `ArcSets.SortIntoSets` | internal/dkim/arc_signer.go:239-260 | the sets hold the last header of every kind and instance, repetitions are noticed, an unusable instance stops |
| `ArcSets.SecondReading` | internal/dkim/arc_signer.go:237-276 | the sealer's inspection of a complete chain finds no duplicate, no gap and the maximum n |
| `ArcChain.NewSeal` | internal/dkim/arc_signer.go:122-131 | both sides read the new seal's instance and chain status |
| `ArcChain.NewAar` | internal/dkim/arc_signer.go:188-210 | the new authentication results are tidy and start with the instance |
| `ArcChain.SealerSees` | internal/dkim/arc_signer.go:237-276 | on an accepted chain the sealer sees n sound sets and marks the chain passed |
| `ArcChain.SelectPresent` | internal/dkim/signer.go:208-230 | the headers the sealer signs are those the verifier selects from the h tag |
| `ArcChain.SelectUnder` | internal/mailauth/dkim.go:187-221 | headers put on top do not change what a fully present h tag selects |
| `ArcChain.NewAmsOk` | internal/mailauth/arc.go:81-122 | the new message signature verifies: body digest, selected headers and stripped value agree |
| `ArcChain.NewSealData` | internal/mailauth/arc.go:167-197 | the data the verifier hashes for the new seal is the data the sealer signed |
| `ArcChain.SealingExtends` | internal/dkim/arc_signer.go:63-161 | a message whose n-set chain the verifier accepts (n < 50) is sealed, and the result is accepted with n+1 sets if and only if the last instance tag among the copied results, if any, names n+1 (section 5.1 of RFC 8617) |
| `ArcChain.ReadsIffCopiesRead` | internal/dkim/arc_signer.go:188-210 | the verifier reads the new instance from the new results if and only if that condition on the copied ones holds |
| `ArcChain.StrayTagBreaksTheChain` | internal/dkim/arc_signer.go:188-210 | when it does not hold, the sealed message is accepted with no number of sets, whoever signed |
| `ArcChain.CopiedTagDecides` | internal/dkim/arc_signer.go:188-210 | inputs of both kinds: own results with a tag i=x put on a message with n sets; it is sealed, and accepted with n+1 sets if and only if x reads as n+1, otherwise with no number of sets |
| `ArcChain.CopiedTagExists` | internal/dkim/arc_signer.go:63-161 | such inputs exist for every x: a From field the sealer covers, and the ledger its key writes |
| `ArcChain.PrependingKeeps` | internal/mailauth/arc.go:11-58 | a header outside ARC put on top of a sealed message keeps it accepted |
| `ArcChain.SealedChainsVerify` | internal/mailauth/arc.go:11-58 | every message without ARC headers that is then given seals of this sealer and other headers, in any order, is accepted with as many sets as seals; at each seal there are fewer than 50 sets, a signable header is present, the signatures are genuine and the copied results meet that condition |
| `DataTransfer.DotStuffLines` | internal/delivery/smtp_client.go:1065-1074 | the loop computes the dot-stuffed text |
| `DataTransfer.ReadData` | internal/smtp/data.go:164-188 | the loop computes the reader's answer on the stream |
| `DataTransfer.StuffedLineReadsBack` | internal/delivery/smtp_client.go:1065-1074 | no stuffed line is taken for the terminator and each is read back without trailing CRs (section 4.5.2 of RFC 5321) |
| `DataTransfer.HopDelivers` | internal/smtp/data.go:164-188 | on the wire form the reader stops at the client's own terminator and returns the payload's lines, exactly when lines and message are within the limits |
| `DataTransfer.BodySurvivesHop` | internal/dkim/signer.go:240-254 | the relaxed body is the same before and after a hop |
| `DataTransfer.VerifierAgreesWithSigner` | internal/mailauth/dkim.go:159-185 | signer and verifier digest the same text for every body |
| `DataTransfer.SplitSurvivesHop` | internal/dkim/signer.go:161-170 | the next hop finds the same header and body if and only if the header holds no blank line of its own |
| `DataTransfer.SignedBodySurvivesHop` | internal/dkim/signer.go:240-254 | then the digest that was signed matches the received message |
| `DataTransfer.StoredHeaderIsWhole` | internal/smtp/data.go:164-188 | the header of a message the DATA reader stored never holds a blank line |
| `DataTransfer.StoredMessageSurvivesHop` | internal/dkim/signer.go:161-254 | so for every message the server took in, header, body and digest are found again at the next hop |
| `DataTransfer.RawHeaderCanBreak` | internal/dkim/signer.go:161-170 | a payload that did not come through the reader can fail: a line of its header that is a lone carriage return |
| `Dkim2Recipes.PassIsGroupwise` | internal/dkim2/recipe.go:120-143 | a pass over the header recipes rebuilds each named group from the message before it and leaves the others |
| `Dkim2Recipes.OrderDoesNotMatter` | internal/dkim2/recipe.go:120-143 | neither success nor the fields under any name depend on the map's iteration order |
| `Dkim2Recipes.CanonicalOfGroups` | internal/dkim2/crypto.go:207-230 | the canonical headers depend on the fields under each name only |
| `Dkim2Recipes.EarlierIsDeterministic` | internal/dkim2/crypto.go:44-58 | after any number of instances canonical headers and body are the same for all iteration orders, or all fail |
| `Dkim2Recipes.CopiedLinesKeepOrder` | internal/dkim2/recipe.go:203-228 | copied body lines come in strictly increasing order, none twice |
| `Dkim2Recipes.CopyingEveryLineIsIdentity` | internal/dkim2/recipe.go:144-155 | the recipe that copies every line gives the body back |
| `Dkim2Recipes.ApplyHeaderSteps` | internal/dkim2/recipe.go:170-201 | the loop computes the rebuilt fields |
| `Dkim2Recipes.ApplyLineSteps` | internal/dkim2/recipe.go:203-228 | the loop computes the rebuilt lines |
| `Dkim2Recipes.WalkRecipes` | internal/dkim2/recipe.go:119-143 | the loop over the map is a pass in some order, also when it fails |
| `Dkim2Recipes.ReconstructHeaders` | internal/dkim2/recipe.go:119-143 | it succeeds exactly when every recipe applies to its group of the message before, rebuilds those groups and keeps the others |
| `Dkim2Recipes.CanonicalMessageHeaders` | internal/dkim2/crypto.go:207-230 | the loops compute the canonical headers |
| `SmtpSession.Authorize` | internal/smtp/recipient_policy.go:41-61 | permits exactly listed local mailboxes, and remote ones for authenticated or trusted clients |
| `SmtpSession.StepTells` | internal/smtp/server.go:330-481 | the reply accounts for every change of envelope, login and message count |
| `SmtpSession.StepKeepsInvariant` | internal/smtp/server.go:330-481 | every command keeps the session in step with the transcript |
| `SmtpSession.EveryQueuedMessageIsGood` | internal/smtp/data.go:23-162 | in every command sequence each queued message has 1..MaxRecipients recipients, accepted since the latest MAIL and each permitted under the login of its own RCPT, and the login the configuration demands |
| `SmtpSession.RecipientsWerePermitted` | internal/smtp/envelope.go:171-253 | each recipient of a queued message has an RCPT of its own since the latest MAIL, permitted by what the session was logged in as at that moment |
| `SmtpSession.TransactionMeaning` | internal/smtp/session.go:33-58 | an open transaction is one MAIL, nothing that clears it, and the recipients accepted since |
| `SmtpSession.LoginMeaning` | internal/smtp/auth.go:20-115 | a login happened after the last STARTTLS, over TLS unless insecure authentication is configured |
| `SmtpSession.NothingCarriesOver` | internal/smtp/session.go:33-58 | between two queued messages lies the MAIL of the second, and its recipients are those accepted since |
| `SmtpSession.MessagesAreBounded` | internal/smtp/server.go:330-345 | a session queues at most MaxMessages messages |
| `SmtpSession.Connection.HandleMail` | internal/smtp/envelope.go:42-169 | MAIL is refused before a greeting, without the required login, with bad or unoffered parameters, oversize or a foreign sender; otherwise the old transaction is dropped and a new one starts |
| `SmtpSession.Connection.HandleRcpt` | internal/smtp/envelope.go:171-253 | a recipient is added exactly when MAIL was accepted, there is room, it is permitted and the hook passes; anything else counts as a failure |
| `SmtpSession.Connection.HandleData` | internal/smtp/data.go:23-162 | a message is queued with the envelope of the session or the transaction ends, except after temporary failures, which keep it |
| `SmtpSession.Connection.HandleAuth` | internal/smtp/auth.go:20-115 | a login is recorded only on a submission listener after EHLO, for a known mechanism and with the required encryption |
| `SmtpSession.Connection.HandleStartTls` | internal/smtp/starttls.go:16-48 | a completed handshake drops greeting, login and transaction |
| `SmtpSession.Connection.Turn` | internal/smtp/server.go:330-481 | one turn of the loop performs the command, or closes the session once a failure or message limit is reached |
| `Spf.EvaluateSound` | internal/mailauth/spf.go:81-187 | at any depth and for any DNS content: counters, open domains, errors of includes and the limit behave |
| `Spf.EvaluationIsBounded` | internal/mailauth/spf.go:81-187 | an evaluation ends, issues at most 10 counted queries, enters no domain that is open, nests at most 11 deep and leaves no further one open (section 4.6.4 of RFC 7208) |
| `Spf.IncludeErrorsSurface` | internal/mailauth/spf.go:272-283 | a permerror or temperror that any include reported is the evaluation's answer unchanged |
| `Spf.LimitIsPermError` | internal/mailauth/spf.go:477-486 | queries are refused exactly when more than 10 are counted, and the answer is the limit's permerror if and only if a refused query is not an address lookup of an mx host or a ptr name, at whatever depth it was made |
| `Spf.LimitWithoutHostLoops` | internal/mailauth/spf.go:477-486 | if no record that DNS answers with has an mx or ptr term, exceeding the limit and the limit's permerror are the same |
| `Spf.LimitInsideMxIsPassedOver` | internal/mailauth/spf.go:339-357 | such a case, for nine or more mail hosts |
| `Spf.VoidsArePermError` | internal/mailauth/spf.go:488-497 | the void limit's permerror is the answer if and only if an empty answer beyond the second is not that of an address lookup of an mx host or a ptr name |
| `Spf.VoidsWithoutHostLoops` | internal/mailauth/spf.go:488-497 | if no record has an mx or ptr term, more than two empty answers and that permerror are the same |
| `Spf.VoidsInsideMxArePassedOver` | internal/mailauth/spf.go:339-357 | three to eight mail hosts without addresses exceed the void limit and the next term decides |
| `Spf.Evaluator.Ask` | internal/mailauth/spf.go:499-561 | past the limit no query is issued; an empty answer counts as void |
| `Spf.Evaluator.MxMatches` | internal/mailauth/spf.go:339-357 | the loop over mail hosts is the recursive search, errors of single hosts passed over and refusals counted |
| `Spf.Evaluator.PtrMatches` | internal/mailauth/spf.go:369-396 | the loop over PTR names is the recursive search over names below the target |
| `Spf.Evaluator.MechanismMatches` | internal/mailauth/spf.go:246-298 | match, state and error of every mechanism, nested evaluation included |
| `Spf.Evaluator.EvalDomain` | internal/mailauth/spf.go:81-187 | result and final state of the method with mutable state are those of the functional evaluator, for which the bounds are proved |
| `HttpInjection.IdFixesPath` | internal/httpinjection/api.go:215-217 | a message id belongs to one record file |
| `HttpInjection.OwnKeeps` | internal/httpinjection/api.go:115-147 | one request, wherever it stops, keeps records and queue in agreement |
| `HttpInjection.SuccessNamesThePayload` | internal/httpinjection/api.go:115-147 | after any run of failures and crashes every 200 or 202 names a queue record with that request's payload, and later requests keep it |
| `HttpInjection.ReuseIsRefused` | internal/httpinjection/api.go:122-131 | a different payload under a claimed, unexpired key gets 409 |
| `HttpInjection.DifferentPayloadConflicts` | internal/httpinjection/api.go:122-131 | 409 is answered exactly for a different payload under an existing record |
| `HttpInjection.NormalizedOnce` | internal/userauth/backend.go:124-126 | folding and trimming a name twice changes nothing more, so the principal a backend returns is a fixed point |
| `HttpInjection.IdIsPath` | internal/httpinjection/api.go:215-217 | for such a principal record path and message id are made from the same text |
| `HttpInjection.AtMostOneRecord` | internal/httpinjection/api.go:115-147 | in every state of every run a principal and key have at most one queue record, under the id every request of theirs computes |
| `HttpInjection.SpellingsShareTheKey` | internal/userauth/backend.go:101-126 | presented names share record and id exactly when they differ in case and surrounding white space only |
| `HttpInjection.ExpiryNamesAnOldRecord` | internal/httpinjection/idempotency.go:50-55 | after expiry a different payload is answered with the old record's id |
| `HttpInjection.Api.Lookup` | internal/httpinjection/idempotency.go:39-60 | an expired record is removed and not found; a record of another scope is an error |
| `HttpInjection.Api.Prepare` | internal/httpinjection/idempotency.go:62-71 | the claim carries payload, message id and expiry, and may be written although an error is reported |
| `HttpInjection.Api.Commit` | internal/httpinjection/idempotency.go:73-84 | the record under the path becomes committed with a new expiry, or nothing changes |
| `HttpInjection.Api.HandleInject` | internal/httpinjection/api.go:115-147 | state and answer of a request, wherever it stops, are those of the specification |
| `InjectionRuns.StoreKeeps` | internal/queue/store.go:142-337 | no operation of the store, wherever it stops, loses an injected message or changes its payload |
| `InjectionRuns.OwnRequest` | internal/httpinjection/api.go:115-147 | a request over the real store keeps claim and files in agreement; a success means the message is in the store with the request's payload in every copy |
| `InjectionRuns.SuccessIsDurable` | internal/httpinjection/api.go:115-147 | a 200 or 202 names a message that is in the store then and in every later state, with that payload, over every interleaving of requests and interrupted store operations within the record's lifetime |
| `InjectionRuns.ExactlyOneFile` | internal/queue/store.go:58-81 | without interruptions it is exactly one file |
| `InjectionRuns.CapacityRefusal` | internal/queue/capacity.go:113-120 | a full queue answers 503, touches no file, and leaves the claim open for another try |
| `MtaSts.ComputeRetryDelay` | internal/delivery/mta_sts.go:275-294 | the loop with its early exit computes the delay for every number of failures |
| `MtaSts.RetryDelayIsDoubling` | internal/delivery/mta_sts.go:275-294 | the delay is min(min*2^(k-1), max) if and only if the doubled value is not exactly max-1; then it is one more |
| `MtaSts.DefaultDelaysAreDoubling` | internal/delivery/mta_sts.go:80-104 | with one second and five minutes the formula always holds |
| `MtaSts.OneShortHappens` | internal/delivery/mta_sts.go:275-294 | other settings than the shipped ones for which it does not |
| `MtaSts.StepKeepsInvariant` | internal/delivery/mta_sts.go:106-206 | the confirmation count never exceeds the fetches that saw the id, and the back-off counts the failed refreshes |
| `MtaSts.RolloverIsConfirmed` | internal/delivery/mta_sts.go:106-227 | on every run of overlapping lookups a call that captured a different nonempty id replaces it only after rolloverNeed fetches in a row saw the new id |
| `MtaSts.UninterruptedLookupConfirms` | internal/delivery/mta_sts.go:106-227 | the same for every lookup that no other overlaps |
| `MtaSts.UnconfirmedIffNothingDiffersFromCapture` | internal/delivery/mta_sts.go:184-198 | with too few sightings the policy is cached if and only if the call captured no different nonempty id |
| `MtaSts.OverlapSkipsConfirmation` | internal/delivery/mta_sts.go:106-206 | two overlapping first lookups replace an id unconfirmed |
| `MtaSts.WaitAfterMisses` | internal/delivery/mta_sts.go:139-153 | after k failed refreshes the next one waits for the k-th delay and the cached policy is served until then |
| `MtaSts.Resolver.BeginLookup` | internal/delivery/mta_sts.go:106-149 | the answer or the call to fetch, and the back-off cleared exactly for a newly published id; other domains are untouched |
| `MtaSts.Resolver.EndLookup` | internal/delivery/mta_sts.go:150-206 | a failed fetch extends the back-off of a cached policy, a successful one clears it and either replaces the policy or counts a confirmation |
| `MtaSts.Resolver.ObserveRollover` | internal/delivery/mta_sts.go:208-227 | accepts exactly with enough confirmations of the same id in a row, and otherwise records one more |

## Left out

- Kafka and Redis queue backends, SQLite and S3 spools, admin and HTTP plumbing, configuration parsing, metrics, tracing, logs and DSN generation.
- Sorting and limiting of `Due`; the set of due records is modelled.
- Metrics refresh around queue operations.
- Liveness of the connection pool and of blocking throttle waits: wake-ups through the `changed` channel are modelled as always possible.
- The interleaving model of the pool also admits runs the code cannot take: other goroutines may enter between two stale sessions that one `get` closes. The class method closes them without a gap.
- Parsing of SMTP command lines and addresses, SASL exchanges, the sender scope against the current principal, and the order in which a message's headers are injected.
- Parsing and macro expansion of SPF records, explanation lookups (which the evaluator does not count), and address arithmetic, which enters as the number of leading bits two addresses share.
- Splitting a header block into fields for ARC: a header's value is taken with folding replaced by blanks, as the sealer reads it, and the verifier sees it with white space collapsed.
- Base64, SHA-256, RSA and Ed25519: signatures and digests are entries of a ledger; the length-limited body digest is an entry of its own. Digests in message ids and record paths are taken as collision free.
- Case folding beyond ASCII, and the overflow error of integer parsing.
- `EvalARC`'s loop over the sets and the second loop of `inspectARCChain` are modelled as conditions on every set; the instance map and the sorting of headers into sets are methods with loops.
- The order of fields inside one multi-entry DKIM2 header copy, which the code reverses.
- JSON decoding of recipes and requests; a recipe step is given decoded or broken.
- Which parts of an injected message its payload is made of: envelope, recipients and text are one text, which the digest covers. Rate limiting, authentication and the sender checks before the claim.
- A queue record on hold that an operator deletes, or a poisoned file: injected messages are not on hold, and the store writes readable files only.
- MTA-STS policy text, its fetching and matching of MX hosts.
