# A verified model of the gateway's state machines and ledgers

The server relays model traffic between clients and upstream accounts, bills it, and runs a small shop.
This project models the parts of it that keep state over time, and proves what they promise:

- **The withholding relay.** `LineReader` cuts an upstream body into lines, out of reads of any shape.
  `Relay` is the closure that decides which bytes may reach the client: its captured variables are the
  fields of a class, each stage of a round a method, and every method is proved against a function on
  values (`Run` and its parts). `RelaySilence` says exactly when a run writes nothing and what it reports
  then, `RelayOrder` that buffering neither loses nor moves a byte, and exactly when it does,
  `RelayMidstream` what the client gets from the first released line on, errors included. `ChatBridge` is
  the twin that translates events into chat-completion frames.
- **The failover loop.** `Failover` is the loop that burns credentials: its record is the exact trace, and it
  ends without its clock, within bounds per credential. `CodexAttempt` joins it to the relay: over all attempts of a request the client
  sees the bytes of one. `ProbeLease` is the half-open probe of the API-key circuit breaker, over every
  interleaving, and `RefreshGate` the gated token refresh.
- **Name guessing.** `EditDistance` proves the two-row table equal to the recursive distance, that distance
  a metric and the least number of single edits; `ModelName` is the three-level choice on top of it.
- **The shop.** `Shop` is the store, one method per SQL transaction, and the settlement path above it.
  `ShopTheorems`, `ShopCards` and `ShopOrders` are about every run of buyers, webhooks, polls with outdated reads, the
  sweeper and the operator.
- **Charging.** `Wallet` is the ledger with its idempotent movements and overdraft floor, `Debit` the retry
  over lost acknowledgements, `ReconcileGroups` and `Reconcile` the recovery of dropped charges,
  `BilledOnce` the two together, over the life of one request. `TurnBilling` and `BillQueue` are the
  per-turn billing of WebSocket sessions, `Limiter` is the rate limiter.

Concurrent parts are state machines whose steps are the critical sections of the source; a run is any
sequence of enabled steps. What the model takes from code outside it (payload classification, JSON
readers, the credential pool, clocks, the upstream) enters as function-valued parameters that the results
hold for without restriction, unless a `requires` names the contract relied on.

Where the code does not do what one would expect of it, the model follows the code. A capacity refusal
withheld from the client is not always invisible: a fatal frame after it writes two newlines
(`RelaySilence.ShedThenFatalIsSeen`), and nothing else ever does (`ShedWritesExactly`). An event line whose
data does not follow is overtaken (`RelayOrder.OrphanedEventIsOvertaken`), and exactly such lines break the
order (`OrderIsExact`). A served name without letters or digits wins every inexact guess
(`ModelName.NamelessWinsContainment`). A live charge can report an error although its write went through
(`Debit.ErrorMovedMoneyExactly`), and the recovery can then bill the request again under the row's own key,
in exactly the case that `BilledOnce.BilledTwiceExactly` names. The limiter's comment grants twice the rate
at a window boundary; the code admits one call fewer, and that bound is reached. It holds for calls that
arrive in clock order, but the clock is read before the mutex is taken: with a skew of d the bound is about
(2 * window + d) / (window - d) times the limit (`Limiter.BoundUnderSkew`), three times it for a skew of up
to a quarter of a window, and with a skew of a whole window there is none (`NoBoundAtAWindow`). Dropped
charges are grouped by two strings joined with a NUL; when two pairs share such a key is stated exactly
(`ReconcileGroups.JoinCollidesExactly`), and pairs whose providers hold no NUL, as none of the gateway's own
does, never do.

## Model

| member | source | states |
|---|---|---|
| LineReader.FramingLosesNothing | internal/server/codex_oauth_proxy.go:1692-1743 | the lines of any byte string and its unterminated rest concatenate to exactly that string |
| LineReader.FramedLinesAreLines | internal/server/codex_oauth_proxy.go:1701-1743 | every line is non-empty and has its only newline at its end |
| LineReader.FramingIsUnique | internal/server/codex_oauth_proxy.go:1701-1743 | there is one way to cut a byte string so: the framing is a property of the bytes |
| LineReader.Reader.Grow | internal/server/codex_oauth_proxy.go:1701-1743 | making room, in place or in a new array, keeps the unread bytes |
| LineReader.Reader.Compact | internal/server/codex_oauth_proxy.go:1701-1743 | moving the unread bytes to the front keeps them and gives the space back |
| LineReader.Reader.Refill | internal/server/codex_oauth_proxy.go:1701-1743 | one read of any size neither loses nor adds a byte; an error that came with data is kept for later, one without is returned at once |
| LineReader.Reader.ReadLine | internal/server/codex_oauth_proxy.go:1701-1743 | the next line and error depend on the bytes still to come alone, not on buffer, reads, or data delivered together with the error |
| LineReader.Drain | internal/server/codex_oauth_proxy.go:1692-1743 | reading to the end returns the framing of the whole stream, however it was cut into reads |
| Relay.Closure.ClassifyData | internal/server/codex_oauth_proxy.go:1305-1535 | a data line is repaired, classified, and then buffered, dropped with the attempt, or let through, as the specification of that line says |
| Relay.Closure.Release | internal/server/codex_oauth_proxy.go:1466-1572 | the guard of a withheld stream, the buffering of event terminators and the emission of held line, preamble and line together, in that order |
| Relay.Closure.Round | internal/server/codex_oauth_proxy.go:1294-1572 | one round of the closure's loop changes the latches and emits as the specification says, for every line and read error |
| Relay.Closure.Next | internal/server/codex_oauth_proxy.go:1294-1572 | one call takes the next non-empty piece off the run of the stream still to come, or ends it |
| Relay.RelayAll | internal/server/codex_oauth_proxy.go:1248-1600 | what is written, and whether a terminal event was seen, is the run over the framed bytes, for every chunking; a client that stops taking bytes gets a prefix of it, and a terminal event it saw is one of the run |
| Relay.RunOneLine | internal/server/codex_oauth_proxy.go:1294-1572 | a run over bytes is the run over its lines: one line read is one round |
| Relay.ReturnsWithBytes | internal/server/codex_oauth_proxy.go:1567-1570 | a call that returns without an error has bytes to write |
| RelaySilence.SilentExactly | internal/server/codex_oauth_proxy.go:1294-1572 | in both modes a run writes nothing if and only if no line commits, judged from the lines alone |
| RelaySilence.QuietStreamsKeepFailoverOpen | internal/server/codex_oauth_proxy.go:1428-1536 | event lines, blank lines and content-free or untyped data inside the window write nothing and report no terminal event, whatever ends the stream |
| RelaySilence.ShedMeansNoOutput | internal/server/codex_oauth_proxy.go:1305-1561 | a run that has shed when it ends has released no output and has written nothing at all, or only the two newlines that close a fatal frame |
| RelaySilence.ShedIsInvisibleExactly | internal/server/codex_oauth_proxy.go:1305-1365 | after a withheld shed nothing is written if and only if no later frame is classified fatal before the stream ends the attempt |
| RelaySilence.ShedWritesExactly | internal/server/codex_oauth_proxy.go:1466-1561 | once a shed is latched the rest of the run writes the two newlines if a fatal frame surfaces, and otherwise no byte |
| RelaySilence.ShedCommits | internal/server/codex_oauth_proxy.go:1551-1561 | once shed, only a fatal frame commits |
| RelaySilence.ShedThenFatalIsSeen | internal/server/codex_oauth_proxy.go:1551-1561 | a concrete stream: a capacity error, then a fatal one, writes two newlines although the shed is recorded |
| RelaySilence.SilentRunReports | internal/server/codex_oauth_proxy.go:1305-1365 | a run that wrote nothing reports the last reason for it that a line of the attempt gave, with its error code, or a stall if it gave none |
| RelayOrder.OrderIsExact | internal/server/codex_oauth_proxy.go:1294-1572 | on streams without error frames the client gets exactly the scrubbed lines in order, or nothing, if and only if no event line is orphaned, whatever the clock does |
| RelayOrder.OrderFrom | internal/server/codex_oauth_proxy.go:1294-1572 | from any state of a run without errors, what has been written once the stream ends is what its lines owed the client, if anything was and exactly if no event line was orphaned |
| RelayOrder.NothingIsLostOrMoved | internal/server/codex_oauth_proxy.go:1294-1572 | at every point of a stream without error frames, written bytes ++ preamble equal the closed part of what the lines so far owe and the held line the open one, if and only if none of them orphaned an event line |
| RelayOrder.FaithfulFrom | internal/server/codex_oauth_proxy.go:1294-1572 | the same from any state, for any further lines: faithful after them if and only if faithful before and nothing orphaned |
| RelayOrder.FeedIsTheRunSoFar | internal/server/codex_oauth_proxy.go:1294-1572 | those are the state and the bytes of the run at that point, whatever the stream brings next |
| RelayOrder.MoveIsFaithfulExactly | internal/server/codex_oauth_proxy.go:1428-1572 | a round keeps written, preamble and held line equal to what is owed, unless it orphans an event line |
| RelayOrder.MoveStaysAstray | internal/server/codex_oauth_proxy.go:1428-1572 | a byte lost or moved is never made good later |
| RelayOrder.WellFormedOrphansNothing | internal/server/codex_oauth_proxy.go:1428-1572 | streams whose event lines are directly followed by their data orphan none |
| RelayOrder.OrphanedEventIsOvertaken | internal/server/codex_oauth_proxy.go:1466-1536 | a concrete stream whose event terminator overtakes its event line |
| RelayMidstream.RestIsExact | internal/server/codex_oauth_proxy.go:1294-1572 | from the line on that starts the output, or from any state after it, in both modes: the client gets each line's share in order, which is the scrubbed repaired line, for a refusal with a demoted form the scrubbed demoted line, and for a top-level error the response.failed pair; a fatal frame is closed and ends the turn; a terminal event, a refusal and a demotion are reported exactly if such a line is reached, and the line that starts the output is named, with its code if it is fatal |
| RelayMidstream.RoundSpeaks | internal/server/codex_oauth_proxy.go:1294-1572 | one round under way: the bytes it releases, the event line left waiting, the reports, and the error it ends with, a clean end for a frame that ends the turn and otherwise the reader's own |
| RelayMidstream.OnceReleased | internal/server/codex_oauth_proxy.go:1294-1572 | wherever a run from the start stands once it has released a byte, the lines to come add exactly those shares to what it wrote |
| RelayMidstream.RoundKeepsOpen | internal/server/codex_oauth_proxy.go:1466-1572 | a stream that has released output and goes on is not withheld, holds no preamble and has met no fatal frame |
| RelayMidstream.PayloadIsRead | internal/server/codex_oauth_proxy.go:1324-1337 | the payload of a data line is the text between field name and line end without blanks, and the line end is kept |
| ChatBridge.AllOrNothing | internal/server/codex_chat_bridge.go:59-119 | the bridge delivers the whole translation, or nothing when the turn is refused before the first frame |
| ChatBridge.OnceStarted | internal/server/codex_chat_bridge.go:59-119 | after the first frame nothing is held back |
| ChatBridge.Closure.Next | internal/server/codex_chat_bridge.go:59-119 | one call hands over the next frame owed, in order, and leaves the rest owed |
| ChatBridge.RelayAll | internal/server/codex_chat_bridge.go:41-133 | all frames of the stream for every chunking, and the reports its lines give: the refusal withheld before the first frame, and whether one came later and the last was for capacity; a recorded shed means no frame at all, with no proviso about fatal frames |
| CodexAttempt.RetriedExactly | internal/server/codex_oauth_proxy.go:390-517 | a streamed attempt is retried if and only if no line of it commits, no terminal event came and the client is still there |
| CodexAttempt.RetriedWithItsReason | internal/server/codex_oauth_proxy.go:419-517 | a retried attempt tells the loop it was shed for capacity exactly if the last reason upstream gave has one of the two capacity codes, and that its socket was dead exactly if upstream gave none over a pooled one |
| CodexAttempt.QuietStreamIsRetried | internal/server/codex_oauth_proxy.go:419-517 | a stream without content or fatal error is always retried while the client waits |
| CodexAttempt.ClientSeesOneAttempt | internal/server/proxy.go:348-549 | over the whole request the client sees the bytes of the last attempt, or none |
| CodexAttempt.RefusedBridgeIsRetried | internal/server/codex_oauth_proxy.go:390-517 | a turn refused before the bridge's first frame is retried whenever the client waits |
| CodexAttempt.RetriedUnseen | internal/server/codex_oauth_proxy.go:52-517 | of attempts turned down before a stream, native streams and bridged ones, only those that wrote nothing are retried |
| CodexAttempt.ServeCodex | internal/server/proxy.go:252-566 | the loop over attempts of all three kinds: an answered request shows exactly the answering attempt, any other shows nothing |
| Failover.ForwardWithFailover | internal/server/proxy.go:252-566 | the record is the trace: each round was in time and picked what the pool offered besides the credentials that are used up, a first dead socket and the first two refusals not counting; the reply follows from it, a client that left during a pause, a final answer, a deadline and an empty pool each exactly; it ends without its clock, each OAuth credential is picked at most 4 times, each API key once, OAuth 12 times in all, none after a preparation failure or on a seeded request; the reply shows the last withheld error and the shortest announced pause, and exhaustion means nothing usable was left, second chances included |
| Failover.TakePick | internal/server/proxy.go:348-549 | one pick: skipped, failed in preparation, refused a probe, or forwarded; either the books go on with exactly that, or the request ends with it |
| Failover.ForwardOnce | internal/server/proxy.go:463-545 | one forward: gone exactly if a capacity retry was due and the client left, answered exactly if it was final, and otherwise the credential is used up or a second chance of its own is |
| Failover.SpentExactly | internal/server/proxy.go:478-510 | a credential is used up exactly if its last event was neither its first dead socket nor one of its first two refusals |
| Failover.Does | internal/server/proxy.go:375-463 | what a round does with a pick: a rate-limited key is skipped, an OAuth credential that cannot be prepared fails, a key whose probe is refused waits, and anything else is forwarded |
| Failover.SecondChances | internal/server/proxy.go:478-510 | the credential is put back exactly for an unused stale or shed credit, and every way out is paid for |
| Failover.LastDeferredExactly | internal/server/proxy.go:455-545 | the error shown is the one withheld last, unless a preparation failed since |
| Failover.LeastWaitExactly | internal/server/proxy.go:468-484 | the pause announced is the shortest that a refused probe asked for, if any did |
| Failover.PickProgresses | internal/server/proxy.go:348-549 | every pick uses up a stale credit, a shed credit or an untried credential: the termination measure |
| Failover.PickKeeps | internal/server/proxy.go:348-549 | every pick keeps the bookkeeping in step with the record of picks |
| Failover.LastPickIsBounded | internal/server/proxy.go:348-549 | the attempt that ends the request stays within the bounds too |
| Failover.RecoveryKeepsTheContract | internal/server/apikey_health.go:125-154 | probing due keys first keeps the pool's contract, and a due key that can serve is never passed over |
| ProbeLease.OneLiveProbe | internal/server/apikey_health.go:98-120 | in every interleaving a key has at most one live probe, and the probe table lists exactly the keys that have one |
| ProbeLease.ProbeIsExclusive | internal/server/apikey_health.go:98-120 | until a probe is released nobody else is let through to its key, not even as ordinary traffic |
| ProbeLease.SecondReleaseIsHarmless | internal/server/apikey_health.go:115-119 | releasing explicitly and again by defer never frees a later holder's lease |
| ProbeLease.RecoveryTracksTheCircuit | internal/server/apikey_health.go:56-93 | a key is in recovery exactly if its circuit opened and was neither closed by a fresh answer nor found settled since |
| ProbeLease.StaleAnswerIsIgnored | internal/server/apikey_health.go:81-93 | while a circuit is open, an answer to a request started no later than the key's last failure changes nothing, and none overrides a manual disable |
| ProbeLease.FreshAnswerClosesTheCircuit | internal/server/apikey_health.go:81-92 | an answer to a request that started after the last failure closes the circuit of a key that is not switched off, whatever happened before |
| ProbeLease.AnswerCountsExactly | internal/server/apikey_health.go:81-92 | an answer is recorded and closes the circuit, or changes nothing at all, by switch, strikes, circuit and start time |
| ProbeLease.GrantedExactly | internal/server/apikey_health.go:98-120 | over every run, who is let through: nobody out of service or while the probe is out, one probe on a half-open or open circuit, everybody else |
| ProbeLease.UnverifiedKeyIsOnlyProbed | internal/server/apikey_health.go:98-120 | an open circuit lets nothing but a probe through |
| ProbeLease.HealthTables.BeginAPIKeyAttempt | internal/server/apikey_health.go:98-120 | the lease step on the live tables |
| ProbeLease.HealthTables.ReleaseProbe | internal/server/apikey_health.go:115-119 | the release closure acts once |
| ProbeLease.HealthTables.RecordAPIKeyFailure | internal/server/apikey_health.go:56-79 | a failure is ignored on a disabled key, otherwise put down once, as a rate limit, a credential fault or a soft fault by its status, and starts recovery if it took the key out of service |
| ProbeLease.HealthTables.RecordAPIKeySuccess | internal/server/apikey_health.go:81-93 | a success closes the circuit unless it is too old or the key is disabled |
| ProbeLease.HealthTables.SweepRecovery | internal/server/apikey_health.go:125-140 | the sweep forgets exactly the settled keys and lists those owed a probe |
| RefreshGate.OneMintPerRejectedToken | internal/server/codex_auth_reject.go:58-80 | over every interleaving at most one exchange of gated callers installs a token for a rejected one (exchanges that fail or keep the token may repeat), and `rotated` means the token differs from the one seen, at return and ever after |
| RefreshGate.BearerIsRefreshedOnce | internal/server/codex_auth_reject.go:58-80 | two exchanges that installed a token were for different rejected bearers |
| RefreshGate.TokenIsLastInstalled | internal/server/codex_auth_reject.go:58-80 | in every run the token in use is the one installed last, by an exchange or from outside |
| RefreshGate.Credential.RecoverRejectedToken | internal/server/codex_auth_reject.go:70-80 | an uninterrupted call is these steps, and without an error `rotated` tells whether the token now differs |
| EditDistance.DistBounds | internal/server/codex_model_guard.go:418-452 | between the length difference and the longer length |
| EditDistance.DistSymmetric | internal/server/codex_model_guard.go:418-452 | the distance is symmetric |
| EditDistance.DistZero | internal/server/codex_model_guard.go:418-452 | zero if and only if equal |
| EditDistance.Triangle | internal/server/codex_model_guard.go:418-452 | the triangle inequality |
| EditDistance.DistIsLowerBound | internal/server/codex_model_guard.go:418-452 | no chain of single edits is shorter than the distance |
| EditDistance.DistIsAttained | internal/server/codex_model_guard.go:418-452 | some chain of single edits is as short |
| EditDistance.DistIsLeastEditCount | internal/server/codex_model_guard.go:418-452 | distance at most k if and only if k insertions, deletions and replacements suffice |
| EditDistance.FillRow | internal/server/codex_model_guard.go:433-448 | one pass turns row i of the table into row i+1 in place |
| EditDistance.Levenshtein | internal/server/codex_model_guard.go:418-452 | the two-row loop with its swap returns exactly the recursive distance |
| ModelName.BestMatch | internal/server/codex_model_guard.go:360-388 | one pass finds the first of the shortest matching names |
| ModelName.NearestWithin | internal/server/codex_model_guard.go:390-403 | the first name of least distance, if within the budget |
| ModelName.ClosestModelName | internal/server/codex_model_guard.go:351-403 | "" or a listed name; equality beats containment, containment beats distance, and distance counts only within max(2, len/4) |
| ModelName.NormalizeJoins | internal/server/codex_model_guard.go:402-416 | what is kept of a name is what is kept of its parts, in order |
| ModelName.NormalizeOne | internal/server/codex_model_guard.go:402-416 | of a single character the folded letter or digit is kept, and nothing else is |
| ModelName.IdentityIsKept | internal/server/codex_model_guard.go:402-416 | a letter or digit anywhere in a name counts |
| ModelName.SeparatorsDoNotCount | internal/server/codex_model_guard.go:402-416 | names that differ only in separators are the same |
| ModelName.ChoiceExplained | internal/server/codex_model_guard.go:340-400 | the same letters and digits if a name has them; else the shortest name that continues the wanted one or is continued by it; else the nearest, if some name is within two slips or one in four characters; else nothing |
| ModelName.ChoiceIsUnique | internal/server/codex_model_guard.go:351-403 | the three rules leave no freedom |
| ModelName.TypoOfASeparatedName | internal/server/codex_model_guard.go:390-403 | a typo within budget resolves to the intended name when the other names are more than twice as far from it |
| ModelName.NamelessWinsContainment | internal/server/codex_model_guard.go:360-388 | a listed name that normalizes to nothing wins every guess that is not exact |
| Shop.Store.AppendCardSecrets | internal/shop/db.go:319-357 | blank lines are skipped, the rest inserted under fresh ids and counted into the stock; a missing product rolls everything back |
| Shop.Store.DeleteUnconsumedSecret | internal/shop/db.go:404-433 | removes an unsold card and lowers the stock; refuses a sold one |
| Shop.Store.DeleteProduct | internal/shop/db.go:303-313 | takes the product's cards with it and leaves orders |
| Shop.Store.CreateOrder | internal/shop/db.go:476-491 | a new order is pending, stamped with the time, in a normalized currency; a taken number is refused |
| Shop.Store.LowestUnsold | internal/shop/db.go:546-552 | the query returns the unsold card of lowest id, if any |
| Shop.Store.MarkOrderPaidAndFulfil | internal/shop/db.go:514-591 | settles a pending or expired order with what its product delivers now, in one transaction, and reports the other cases without effect |
| Shop.Store.SetFulfillment | internal/shop/db.go:627-639 | only a settled order is edited, and becomes paid |
| Shop.Store.ExpirePendingBefore | internal/shop/db.go:643-652 | exactly the pending orders older than the cutoff expire |
| Shop.Shop.ApplyStripeSession | internal/shop/handlers_public.go:305-338 | acts on the caller's copy of the order; only the caller whose transaction settled it queues the email |
| Shop.Shop.MaybeSettleStripeOrder | internal/shop/handlers_public.go:344-357 | the poll settles like the webhook, or does nothing |
| ShopTheorems.InventoryIsSound | internal/shop/db.go:319-591 | over every run stock equals the number of unsold cards, sold cards of a product are older than unsold ones, and no order owns two cards |
| ShopTheorems.StockNeverClamps | internal/shop/db.go:404-433 | MAX(0, stock - 1) never has anything to catch |
| ShopTheorems.NoCardIsLost | internal/shop/db.go:319-591 | for a live product, cards appended are those unsold, sold, or deleted unsold |
| ShopCards.EachLineIsACard | internal/shop/db.go:319-356 | the j-th line that is not blank is the text of the j-th new card, trimmed, and no other card is touched |
| ShopCards.CleanedJoins | internal/shop/db.go:320-326 | the lines of a batch are cleaned one by one, in order |
| ShopCards.NoTextIsLost | internal/shop/db.go:319-591 | over every run, for a live product and every text, as many of its cards hold it, or did when deleted unsold, as lines with that text were appended |
| ShopCards.CardsKeepTheirText | internal/shop/db.go:319-591 | a card keeps its text and product, and from its sale on its owner |
| ShopCards.ProductsAreAsEdited | internal/shop/db.go:231-313 | over every run a product is there, with the delivery and texts of its last edit, exactly if it was created and not dropped since |
| ShopOrders.OrdersOnlyMoveUp | internal/shop/db.go:514-652 | an order never moves down pending, expired, awaiting, paid, and its price and product never change |
| ShopOrders.SettledAtMostOnce | internal/shop/db.go:603-617 | one step of a run settles an order, at most |
| ShopOrders.OnlyPaymentSettles | internal/shop/handlers_public.go:305-338 | that step is a paid session verified against the order's own amount and currency, even when the caller's copy is old |
| ShopOrders.PaymentAlwaysSettles | internal/shop/handlers_public.go:305-338 | a committed confirmation of a paid session leaves the order settled whatever copy it was decided on, a swept order included |
| ShopOrders.PlacedExactly | internal/shop/db.go:476-491 | a placed order is pending and unpaid with the terms it was placed with, and a taken number keeps its order |
| ShopOrders.CurrencyExactly | internal/shop/db.go:49-55 | the currency is usd in any case and with blanks around it, and otherwise cny |
| ShopOrders.SweepExpiresExactly | internal/shop/db.go:643-652 | a sweep expires exactly the pending orders older than its cutoff |
| ShopOrders.ExpiredBySweep | internal/shop/db.go:643-652 | over every run an expired order was overtaken by such a sweep |
| ShopOrders.HandDeliveryExactly | internal/shop/db.go:627-639 | a delivery by hand replaces that of a settled order, which is then paid, and touches nothing else |
| ShopOrders.AtMostOneCard | internal/shop/db.go:548-571 | an order is given at most one card, in the step that settles it |
| ShopOrders.OneEmailPerSettlement | internal/shop/handlers_public.go:323-337 | exactly one settlement email is queued for a settled order and none for another |
| ShopOrders.WhatSettlementDelivers | internal/shop/db.go:526-583 | the operator is called in exactly when product, automatic delivery or stock is missing; otherwise the template, or the oldest unsold card, is delivered; payment number and time are recorded |
| Wallet.ClampCharge | internal/saas/db/wallet.go:190-201 | never more than asked; never below a positive floor; cut short only to rest exactly on it or to nothing |
| Wallet.WalletDb.WalletIdem | internal/saas/db/wallet_idem.go:127-236 | validation, replay, conflict, clamp and insert in one transaction, under every fate of its acknowledgement |
| Wallet.WalletDb.ChargeWorkspaceWithFloor | internal/saas/db/wallet.go:133-179 | the same charge without a key |
| Wallet.WalletDb.AddWorkspaceBalance | internal/saas/db/wallet.go:91-112 | a signed movement of any kind that refuses to go negative unless allowed to |
| Wallet.MoneyIsConserved | internal/saas/db/wallet.go:133-179 | over any operations each balance is its opening plus its ledger rows, and no key has two rows |
| Wallet.FirstMovementIsExact | internal/saas/db/wallet_idem.go:168-236 | an unused key takes exactly what the floor leaves of the amount; balance, reported balance, clamp flag and one new row say so, and nothing is written for nothing |
| Wallet.RefusedExactly | internal/saas/db/wallet_idem.go:127-165 | each refusal of a keyed movement has its exact cause, in the order of the checks, and changes nothing |
| Wallet.ToldExactly | internal/saas/db/wallet_idem.go:127-236 | a success is told exactly if the movement succeeded and was acknowledged, and a fault exactly if an acknowledgement or a transaction was lost |
| Wallet.KeyedChargeIsThePlainOne | internal/saas/db/wallet_idem.go:96-100 | the first call under a key is the charge without one, but for the key on its row |
| Wallet.PlainChargeIsExact | internal/saas/db/wallet.go:133-179 | a charge without a key takes what the floor leaves, writes one row for it, and fails only without a workspace |
| Wallet.AdjustmentIsExact | internal/saas/db/wallet.go:91-112 | an adjustment is all or nothing, and refused exactly when it would go below zero unallowed |
| Wallet.ReplayIsFree | internal/saas/db/wallet_idem.go:101-109 | presenting a settled key again, for the same user or none, after anything else, moves nothing and reports what the first call did, the balance as it is now, and whether the row fell short of what is asked |
| Wallet.FloorHolds | internal/saas/db/wallet.go:190-201 | with a positive floor on the charges no operations rest a balance below it, or push one deeper that is, except by what adjustments were allowed to take |
| Debit.AtMostOnce | internal/saas/adapter/adapter.go:348-396 | whatever befalls the calls, at most one ledger row and four calls; success reports the row's amount, or zero with the key unclaimed |
| Debit.LastAnswerCounts | internal/saas/adapter/adapter.go:372-395 | no call follows a success or a final refusal, any other failure is repeated until the retries are used up, and the caller gets the last answer |
| Debit.SuccessMovedTheMoney | internal/saas/adapter/adapter.go:348-396 | with a key of its own, the ledger has a row for it exactly if one of these calls wrote it |
| Debit.SettledKeyIsNotBilledAgain | internal/saas/adapter/adapter.go:372-394 | a key on the ledger makes every further call free |
| Debit.ErrorMovedMoneyExactly | internal/saas/adapter/adapter.go:372-395 | an error is reported although the money moved if and only if the call that wrote the row lost its acknowledgement and no later call was acknowledged |
| Debit.SettledRetry | internal/saas/adapter/adapter.go:372-395 | on a settled key the retry fails if and only if none of its calls is acknowledged |
| Debit.RetryKeepsTheBooks | internal/saas/adapter/adapter.go:348-396 | with other traffic between the calls, books balance and no balance rests below a positive floor but by allowed adjustments |
| Debit.Adapter.Debit | internal/saas/adapter/adapter.go:348-396 | the loop is that retry; without a key or above the ceiling there is one call |
| ReconcileGroups.GroupDropped | cmd/server/reconcile_cmd.go:279-301 | each group is the rows of one key in log order with their totals, groups come in first-seen order, every row is in one, totals agree; and every group's rows are of its own token and provider if and only if no two rows of different pairs share a key |
| ReconcileGroups.PlainProvidersAreDistinguished | cmd/server/reconcile_cmd.go:283 | rows whose providers hold no NUL never share a key across pairs, whatever the tokens |
| ReconcileGroups.JoinIsInjective | cmd/server/reconcile_cmd.go:283 | the joined key tells (token, provider) pairs apart when the providers, or the tokens, have no NUL |
| ReconcileGroups.JoinCollidesExactly | cmd/server/reconcile_cmd.go:283 | two pairs share a key if and only if they are equal or one token goes on where the other ends, with a NUL and the beginning of its provider |
| ReconcileGroups.BuildUnmasker | cmd/server/reconcile_cmd.go:309-334 | a mask yields a secret exactly when one listed token masks to it, and that one; two make it ambiguous |
| ReconcileGroups.CandidateIsUnique | cmd/server/reconcile_cmd.go:304-334 | every listed token with that mask is the one returned |
| ReconcileGroups.MasksCollideExactly | internal/server/proxy.go:603-608 | two tokens share a mask exactly if both have ten characters or fewer, or both more and the same first six and last four |
| Reconcile.RunIsClean | cmd/server/reconcile_cmd.go:434-499 | a run, finished or aborted, charges only planned keys that were free, each once; finished, it leaves each key settled or clamped to zero |
| Reconcile.ReportIsWhatWasPosted | cmd/server/reconcile_cmd.go:487-513 | a finished run's total is what its rows took, and settled, already settled and clamped rows are all of its charges |
| Reconcile.OverlappingRunsChargeOnce | cmd/server/reconcile_cmd.go:434-499 | two runs over any windows, wherever they stopped and whatever happened between, share no charged key |
| Reconcile.RerunMovesOnlyClampedRows | cmd/server/reconcile_cmd.go:474-486 | rerunning a finished window moves money only for rows clamped to zero |
| Reconcile.RunKeepsTheBooks | cmd/server/reconcile_cmd.go:434-499 | balances stay explained by the ledger, with the server billing beside the run |
| Reconcile.BilledToTheRightAccount | cmd/server/reconcile_cmd.go:209-236 | every charge of a run is that of a dropped row, under its key and at its own price, on the account of the only listed token that the row's masked token can stand for |
| Reconcile.EveryDroppedRowIsCharged | cmd/server/reconcile_cmd.go:351-389 | every dropped row whose token resolves to one customer with a price is among the charges |
| Reconcile.SkippedExactly | cmd/server/reconcile_cmd.go:209-236 | a group is skipped exactly if its token stands for no single customer, or nothing is owed for it |
| Reconcile.ReconcileCharges | cmd/server/reconcile_cmd.go:171-277 | from rows (of providers without a NUL) and tokens to the ledger, whatever order the groups are settled in: each row the run writes is the charge of a dropped row on its own customer's account, of its price unless the floor lowered it; and when the run ends without an error, every dropped row with one customer and a price is on the ledger or was clamped to nothing |
| Reconcile.ZeroMeansAtTheFloor | internal/saas/db/wallet_idem.go:190-205 | only a balance at or below a positive floor is clamped to nothing, and then nothing is written |
| Reconcile.ApplySettlements | cmd/server/reconcile_cmd.go:434-513 | the nested loops charge exactly the plan in order, report its totals and the skipped groups, and stop at the first error |
| BilledOnce.BilledTwiceExactly | internal/saas/adapter/adapter.go:348-396 | over the life of a request, live charge and recovery both bill it if and only if the live write lost its acknowledgement for good and a call of the recovery for the row was reached, committed and found the balance above the floor |
| BilledOnce.LostAcknowledgementIsReportedAsFailure | internal/saas/adapter/adapter.go:372-395 | a concrete case: the first call commits unacknowledged, the retries fail, an error is reported |
| BilledOnce.RecoveredKey | cmd/server/reconcile_cmd.go:351-389 | the row's key is on the ledger exactly if one of the run's calls took money for it, and never when the live charge succeeded |
| BilledOnce.RunTakesExactly | cmd/server/reconcile_cmd.go:434-499 | a run charges a key nobody else presents if and only if a call for it is reached, commits, and finds the request in order and the balance above any floor |
| BilledOnce.RunGoesOnExactly | cmd/server/reconcile_cmd.go:474-478 | a run gets past a call if and only if it is acknowledged and accepted: in order, and with its key free or settled by the same charge |
| TurnBilling.PromptIsSplit | internal/server/codex_proxy.go:1269-1305 | for all reports, in either dialect, cached and uncached tokens add up to the prompt when no more is cached than prompted, and otherwise the uncached part is zero; an empty report counts no request |
| TurnBilling.DialectsCountAlike | internal/server/codex_proxy.go:1269-1305 | both dialects of a report give the same counts, and where both speak the chat one goes first |
| TurnBilling.MergeCodexUsage | internal/server/codex_proxy.go:1237-1265 | overwriting the fields that are reported in place is the overlay whose meaning MergeIsLastWord gives |
| TurnBilling.MergeIsLastWord | internal/server/codex_proxy.go:1237-1265 | merging reports one by one yields, per axis, the last report that says something |
| TurnBilling.BillIsItsTurn | internal/server/codex_ws.go:588-601 | each bill is its own turn's usage, and negative nowhere if and only if the turn's last image report is |
| TurnBilling.BillsTelescope | internal/server/codex_ws.go:588-601 | the bills add up to the session total, one request per terminal event |
| TurnBilling.TotalIsTheSumOfTurns | internal/server/codex_ws.go:588-601 | the session total is the sum of its turns on every axis |
| TurnBilling.HandledExactly | internal/server/codex_ws.go:434-514 | the loop stops behind the first frame, not text or kept by the scrub, that the client did not take |
| TurnBilling.RepeatedReportChangesNothing | internal/server/codex_proxy.go:1221-1265 | a usage report that is repeated later in its turn, by another snapshot or by the terminal event, whatever comes in between, changes no bill, total or later event |
| TurnBilling.CoveredReportChangesNothing | internal/server/codex_proxy.go:1221-1265 | the same for any report that a later one of the turn covers axis by axis, whatever the values: only the last word counts |
| TurnBilling.ReportChangesNothingExactly | internal/server/codex_proxy.go:1237-1265 | a report inside a turn leaves everything as it was if and only if it is silent or repeats the last word on every axis |
| TurnBilling.PumpUpstream | internal/server/codex_ws.go:434-514 | the loop with its running totals bills exactly the completed turns, counts a cut-off turn without billing it, and stops at the client's first refusal |
| BillQueue.NothingIsLost | internal/server/codex_ws.go:376-397 | in every interleaving each completed turn is in exactly one place, and the queue holds at most 64 |
| BillQueue.TurnGoesExactly | internal/server/codex_ws.go:387-394 | in every run a turn joins the end of the queue under the next number, or is settled inline exactly when the queue is full |
| BillQueue.QueueIsInOrder | internal/server/codex_ws.go:376-397 | in every run the queue is in the order of completion, behind what the worker has taken |
| BillQueue.ClosedForGood | internal/server/codex_ws.go:395-397 | after close no turn is completed any more |
| BillQueue.EveryTurnIsSettledOnce | internal/server/codex_ws.go:376-397 | when Wait returns the settled turns are the completed ones, each once, and the queue is empty |
| BillQueue.SlotsAreDistinct | internal/server/codex_ws.go:627 | no two settled turns share a slot turn:n |
| BillQueue.DrainEnds | internal/server/codex_ws.go:395-397 | after close every step brings Wait nearer, and one is always possible until it returns |
| BillQueue.Channel.BillTurn | internal/server/codex_ws.go:387-394 | a full channel sends the turn to the inline settlement, under the next number |
| BillQueue.Channel.Drain | internal/server/codex_ws.go:379-384 | the worker settles what it holds and everything queued, in order |
| Limiter.EvictionIsInvisible | internal/saas/adapter/sso.go:207-216 | for calls in clock order, evicting stale windows never changes an answer |
| Limiter.FewUsersAreNeverEvicted | internal/saas/adapter/sso.go:207-216 | nor does it in any order while no more than 4096 users call |
| Limiter.EvictionIsVisible | internal/saas/adapter/sso.go:203-216 | for every limit and window, a crowded run with a skew of one window whose answers the eviction changes |
| Limiter.FewerThanTwiceTheLimit | internal/saas/adapter/sso.go:199-228 | for calls in clock order, any half-open interval of one window admits at most 2*limit - 1 calls of a user |
| Limiter.TheBoundIsReached | internal/saas/adapter/sso.go:199-228 | a concrete run that reaches it |
| Limiter.BoundUnderSkew | internal/saas/adapter/sso.go:199-228 | for calls at most d out of clock order, d less than a window, any interval of one window admits at most n*limit calls of a user, for any n with n*(window - d) >= 2*window + d - 1, eviction included |
| Limiter.NoBoundAtAWindow | internal/saas/adapter/sso.go:203-216 | with a skew of one window there is no bound: for every k, limit and window, a run whose first user has k calls admitted in one window |
| Limiter.NoBoundOutOfOrder | internal/saas/adapter/sso.go:203-205 | for every k, a run of calls that read the clock before they waited for the mutex, with at least k admitted in one window's length under a limit of 2 |
| Limiter.UserRateLimiter.Admit | internal/saas/adapter/sso.go:199-228 | the method with its eviction loop decides as specified |

## Left out

- HTTP, headers, sockets, TLS, logging, emails' text, templates and the web front end: no state worth proving about.
- The credential pool, circuit-breaker internals (what a mark leaves of a key's health is arbitrary, except that the last failure never moves back), pricing, identity rewriting and classifiers of the shared core library: contracts or arbitrary functions.
- JSON: payloads are read by arbitrary functions, and usage frames arrive as records.
- Bytes are characters, and blank space is the ASCII kind; the results do not depend on the range of a character.
- Integers and reals are unbounded and exact: 64-bit overflow and floating-point rounding of amounts are not modelled.
- SHA-256 of a dropped row: an arbitrary function of its content; results are per key.
- SQLite's locking: a transaction is one step that commits, commits without acknowledgement, or does not commit; losing the insert race of two equal keys is therefore not a step of its own.
- Keepalive comments that the shared relay driver writes before the first output; they count as no output there.
- Relay.Closure.Round: does not report the truncated previews kept for logs, the time of the first output or the upstream model name, because they only feed the request log.
- RelayOrder.OrderIsExact: is stated for the mode without a content-start callback, because with one the relay ends at the terminal event and appends a newline of its own; it takes from the scrubber only that a data line stays one or is dropped.
- LineReader.Reader.ReadLine: does not model that the returned line is a view into the buffer until the next call, because lines are values here.
- The non-streaming aggregation, the compact endpoint and the API-key forwarding path; CodexAttempt takes from the latter only that a retried attempt wrote nothing.
- Failover.ForwardWithFailover: does not model a pool that gains credentials during a request, because its promise is about a fixed pool; the wording of the final message and the log records are left out too.
- The client-to-upstream half of the WebSocket pump, pings, and service tiers: they bill nothing.
- TurnBilling.PumpUpstream: does not model the duration of a turn, because it only feeds the request log.
- Shop: session creation, query passwords, manual resends of an email and the email_sent flag.
- Reconcile.ApplySettlements: does not fix the order of the groups, because the sort is by amount and leaves ties open; results hold for every order.
- Limiter.EvictionIsInvisible: is about calls that reach the table in the order in which they read the clock, because it is false for others (EvictionIsVisible).
- Limiter.FewerThanTwiceTheLimit: is about that order too; BoundUnderSkew is the bound for calls out of order, not claimed to be the least one.
- Limiter: a limiter whose limit or window changes between calls.
- BilledOnce.BilledTwiceExactly: is about charges with a key; one without a key, or above the ceiling, has a single call whose lost acknowledgement has the same effect.
