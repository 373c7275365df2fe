# FileMarket, verified

A Dafny model of the parts of FileMarket whose guarantees only follow from several functions taken
together, with proofs of those guarantees. `dafny verify dfyconfig.toml` checks everything.

## What is modelled

**Indexer** (`Chain`, `Ledger`, `Tables`, `Effects`, `Indexer`, `Refinement`, `Runs`, `Replay`, `Delivery`,
`Stuck`, `Histories`, `Follower`, `Consistency`, `Chronicle`, `Journeys`, `Dedup`, `Exchange`, `Sales`,
`FloorPrice`). The contracts' per-token protocol is the automaton `Chain.Emit`, read off
`FilemarketCollectionV2.sol` and the exchange.
`Indexer.Repository` holds the five tables; `Indexer.Service` holds one method per event handler, the
dispatch and the block transaction; `Follower` holds the polling of the chain head, the catch-up loop and
the loop of one process. `Ledger.Handle` says what one log does to what the tables mean, leaving out row
ids (a rolled-back transaction still consumes them) and timestamps (the indexer's own clock). These layers
are proved to agree:

- every handler does to the rows what `Effects.Done` says, and that is what `Ledger.Handle` says;
- a clean pass of `Handle` mirrors the contracts (`Refinement.CleanPassMirrors`), and it succeeds exactly on
  the histories that can be followed (`Refinement.CleanPassSucceedsIff`);
- every run of the follower, with failed blocks, lost commit acknowledgements, unrecorded progress, rounds
  stepped over and restarts, ends where one clean pass ends, if and only if every log so far was taken in
  (`Delivery.ExactlyOnce`), and the classes themselves end there (`Follower.Follower.ListenBlockchain`).

What the tables then hold is told from the contracts' logs alone in `Chronicle`: of every transfer, ended ones
included, down to the rows (`Chronicle.EveryLogInTheRows`, `Chronicle.EndedRow`).

A log is *taken in* when its handler gets past its early returns: a mint when its block is fetched, any
other log when its token is in the tables.

*Assumptions.* `Refinement.Possible` collects what is assumed of a history: the contracts could have logged
it, with a recipient named in every draft completion; no transaction gives one token id the same status twice
(the deduplication key of `TransferTxExists` is transaction, status and token id, without the collection, and
`Dedup.NothingSwallowedIff` shows that this is exactly what it takes); and mints and TransferInits are logged
by the contract the transaction was sent to (the indexer files them under the transaction's recipient, not
under the log's address: `Consistency.FiledIff`). `Refinement.Legal` adds that the indexer can follow every
log. The clock does not run backwards; that two status rows of one parent never share a millisecond is not
assumed but follows from the primary key, whose violation is an error path of the model. A draft carries two
prices: that of its own order and the exchange's answer to the indexer, which is the order standing at the end
of the draft's block; the indexer stores the answer, and `Exchange` says when the two agree.

**Sequencer** (`Sequencer`). The pool, the timers, the remembered ids and the throttled release of
`indexer/pkg/sequencer`, with every exported operation atomic.

**Encrypted files** (`Cbc`, `Container`, `OlderFormat`). CBC (section 6.2 of NIST SP 800-38A), padding
(section 6.3 of RFC 5652), the container `iv | SHA-512 | AES-CBC` in Go, Rust and TypeScript, and the older
block-by-block format. The block cipher is any permutation with its inverse and the hash any function
with outputs of the right length. A slice out of range is the outcome `Panics`.

**Key derivation** (`Hkdf`, `Derivation`). HKDF expand against section 2.3 of RFC 5869, and the byte
encoding of key type, collection, token and deal.

**Sessions** (`Sessions`). The `auth_tokens` table, the session-number allocator and the sign-in, refresh,
logout and check steps. A presented token is the claims it carries, which is all the parser passes on.

**Nonces** (`Nonces`). The autoseller's workers as a machine of small steps, in every interleaving.

## Where the code falls short of a natural claim

Each of these is stated as an exact condition, with a concrete history or value beside it.

- A mint is dropped without an error when fetching its block a second time fails, and a round stepped over
  because the node answers "want 512 for Bloom" is lost if it held logs. Either way logs are not taken in,
  and `Delivery.ExactlyOnce` says that this is exactly when the tables are wrong (`Histories.DroppedMint`,
  `Histories.SkippedRoundIsLost`). No run at all has the right tables with a log missing
  (`Replay.NothingMayBeMissing`); the converse asks that no restart goes back over a lost round, or more
  generally that each token's logs are taken in in their order, and `Histories.OutOfOrder` shows why.
- The contracts let an owner start a draft past the exchange, and complete a transfer that TransferInit
  started without a recipient. The indexer errs on both, so a clean pass fails exactly on histories with
  such a log (`Refinement.CleanPassSucceedsIff`, `Histories.UnansweredDraftFails`,
  `Histories.NamelessCompletionFails`), the block fails exactly while the log's token is in the tables
  (`Stuck.NextBlockFailsIff`), and a follower holding the token never gets past it (`Stuck.StuckForever`).
- The deduplication key leaves out the collection, so a transaction that gives one token id the same status in
  two collections loses the second (`Dedup.NothingSwallowedIff`, `Dedup.SharedId`).
- Sales volumes add up the exchange's answers, and an order is asked about only at the end of its block. They
  exceed what was paid out by exactly what the transfers drafted and sold within one block account for, and
  agree if and only if that is nothing (`Sales.SalesArePaidIff`, `Exchange.FlashSale`).
- The sequencer's answer from an empty pool is the remembered id, which is another wallet's exactly if that
  wallet holds it (`Sequencer.AnswersInHistory`, `Sequencer.RememberedMayBeLeased`).
- The Go reader unpads leniently: it looks at the last byte only and accepts 0. What it opens beyond
  containers is `Container.OpensBeyondIff`, with `Container.UnpaddedOpens` as the value.
- The older decoder loses leading zero bytes and can fail on the empty file (`OlderFormat.RoundTripIff`,
  `OlderFormat.LeadingZeroLost`).
- HKDF output is longer than asked for unless whole hash blocks are asked for, because a length in bits is
  used to cut octets (`Hkdf.ExactlyStandardIff`, `Hkdf.LongerOutput`), and up to 256 blocks are produced
  where the standard stops at 255 (`Hkdf.HkdfExpand`, `Hkdf.BlockBeyond`).
- RSA info strings collide from deal number 256 on (`Derivation.DealBoundIsExact`,
  `Derivation.RsaInfoCollision`).
- `finalize` repeats one test where `approve` tests for "already in mpool", so a nonce can be used twice
  (`Nonces.ConsecutiveIff`, `Nonces.NonceReused`).

## Model

| member | source | states |
|---|---|---|
| Indexer.Repository.InsertTransfer | indexer/internal/repository/transfers.go:708-726 | Appends a transfer with the next id, or fails and changes nothing when the token row is missing; the id is consumed either way. |
| Indexer.Repository.UpdateTransfer | indexer/internal/repository/transfers.go:728-756 | The update by id changes exactly the one row with that id. |
| Indexer.Repository.InsertTransferStatus | indexer/internal/repository/transfers.go:758-766 | Appends the row unless (transfer, timestamp) is taken; then it fails and changes nothing. |
| Indexer.Repository.InsertOrder | indexer/internal/repository/orders.go:618-632 | Appends the order under the next id. |
| Indexer.Repository.InsertOrderStatus | indexer/internal/repository/orders.go:634-641 | Appends the row unless (order, timestamp) is taken; then it fails and changes nothing. |
| Indexer.Repository.OrderOfActive | indexer/internal/repository/orders.go:395-435 | The order that ending events write to is the active transfer's own order: the extra query for an active order never hides it. |
| Indexer.Repository.Rollback | indexer/internal/service/service.go:1454-1459 | A rolled-back transaction restores every table and keeps the consumed ids. |
| Indexer.Service.OnMint | indexer/internal/service/contract_events.go:23-82 | Inserts the token under the transaction's recipient, does nothing for a known token or a failed block lookup, and errs only if another outside call fails. |
| Indexer.Service.OnTransferInit | indexer/internal/service/contract_events.go:236-294 | Opens one Created transfer unless already seen or the token is unknown; every error is one of the listed causes. |
| Indexer.Service.OnTransferDraft | indexer/internal/service/contract_events.go:296-450 | Opens one Drafted transfer with its placed order at the price the exchange answers, unless already seen or the token is unknown; without an order to answer with it errs. |
| Indexer.Service.OnDraftCompletion | indexer/internal/service/contract_events.go:452-589 | Sets the recipient of the active transfer and stamps transfer and order; without an order it errs. |
| Indexer.Service.OnPublicKeySet | indexer/internal/service/contract_events.go:591-657 | Stores the key on the active transfer, stamps it, and touches no other row. |
| Indexer.Service.OnPasswordSet | indexer/internal/service/contract_events.go:659-760 | Stores the password on the active transfer, stamps it, and touches no other row. |
| Indexer.Service.OnTransferFinish | indexer/internal/service/contract_events.go:762-842 | Ends the active transfer, closes its order as paid and hands the token to the recipient. |
| Indexer.Service.OnFraudReported | indexer/internal/service/contract_events.go:844-900 | Stamps the active transfer as reported and touches nothing else. |
| Indexer.Service.OnFraudDecided | indexer/internal/service/contract_events.go:902-993 | Ends the active transfer; approved fraud marks it and its order and keeps the owner, rejected fraud pays and hands over. |
| Indexer.Service.OnTransferCancel | indexer/internal/service/contract_events.go:995-1062 | Cancels the active transfer and withdraws its order; the owner stays. |
| Indexer.Service.Dispatch | indexer/internal/service/service.go:1372-1404 | Every log is handled by the handler of its event, with the same contract. |
| Indexer.Service.ProcessBlock | indexer/internal/service/service.go:1451-1488 | All or nothing: success means the ledgers moved by the whole block, a refusal leaves every row as it was, a lost acknowledgement may be either; integrity survives; and a block whose every log can be handled commits. |
| Tables.ActiveRowIsActive | indexer/internal/repository/transfers.go:642-666 | Picking the latest status by timestamp picks the last one inserted, so the query selects exactly the active transfers. |
| Tables.SeenRowIsSeen | indexer/internal/repository/transfers.go:768-789 | The deduplication join finds a row exactly if some transfer of a token with that id carries that stamp. |
| Tables.OpensView | indexer/internal/repository/transfers.go:708-726 | The rows an opening event inserts show as one more transfer of that token, and nowhere else. |
| Tables.AdvancesView | indexer/internal/repository/transfers.go:728-766 | The rows a later event writes show as one stamped transfer of that token, and nowhere else. |
| Tables.MintsView | indexer/internal/repository/tokens.go:318-350 | A token row shows as one new, empty ledger. |
| Effects.ActiveAgrees | indexer/internal/repository/transfers.go:642-706 | The row GetActiveTransfer returns is the ledger's first active transfer, and there is none exactly if the ledger has none. |
| Effects.SuccessHandled | indexer/internal/service/contract_events.go:236-1062 | A handler that returns no error moved the ledgers exactly as one abstract step, whatever event it handled, and kept keys, references and timestamps sound. |
| Effects.FailureHandled | indexer/internal/service/contract_events.go:236-1062 | Once the clock has moved on, a handler errs only where the abstract step has no result: no spurious failure. |
| Refinement.FreshLogHandled | indexer/internal/service/contract_events.go:236-1062 | A new log of a token whose ledger mirrors the contract is handled exactly if it can be followed, and then only its own token's ledger moves. |
| Refinement.ContinueMirrors | indexer/internal/service/contract_events.go:236-1062 | A log that can be followed keeps its token's ledger in step with the contract. |
| Refinement.PassMirrors | indexer/internal/service/contract_events.go:23-1062 | As long as its logs can be followed, a token's ledger mirrors its contract after every log: owner, phase, parties, key, password, answered price, order history. |
| Refinement.PassStamps | indexer/internal/service/contract_events.go:247-253 | The status rows of a token are exactly those its logs leave. |
| Refinement.CleanPassMirrors | indexer/internal/service/contract_events.go:23-1062 | A clean pass over any legal history succeeds, mirrors the contracts for every token, and leaves every token where its own logs leave it. |
| Refinement.CleanPassSucceedsIff | indexer/internal/service/service.go:393-455 | Over every history the contracts can produce, a clean pass succeeds if and only if every draft is answered and every completion belongs to an answered draft. |
| Refinement.AdvanceMirrors | sol-contracts/contracts/FilemarketCollectionV2.sol:268-409 | Each event on a pending transfer keeps ledger and contract state in step. |
| Refinement.OpenMirrors | sol-contracts/contracts/FilemarketCollectionV2.sol:233-263 | Starting a transfer keeps ledger and contract state in step. |
| Refinement.NotSeenYet | indexer/internal/service/contract_events.go:247-253 | Deduplication never swallows a log that left nothing yet. |
| Consistency.AtMostOneActive | indexer/internal/repository/transfers.go:642-666 | A token has at most one transfer whose latest status is neither Finished nor Cancelled: the last one, while the contract has a pending transfer. |
| Consistency.ActiveTransferIsUnique | indexer/internal/repository/transfers.go:642-706 | At most one row satisfies the query, so its answer does not depend on row order. |
| Consistency.ActiveOrderBelongsToActiveTransfer | indexer/internal/repository/orders.go:395-411 | GetActiveOrder returns the order of the transfer GetActiveTransfer returns, or neither has one. |
| Consistency.OneOrderPerTransfer | indexer/internal/service/contract_events.go:399-426 | No transfer has two orders. |
| Consistency.OwnersAndSales | indexer/internal/service/contract_events.go:822-842 | The tables hold exactly the minted tokens, with the contract's owner and number of transfers, and each token's orders add up to the exchange's answers for its sales. |
| Consistency.OrderFollowsTransfer | indexer/internal/service/contract_events.go:808-820 | An order is placed, then possibly fulfilled, then closed once, the way its transfer ended; a sale counts once. |
| Consistency.CompletionNeedsDraft | indexer/internal/service/contract_events.go:493-500 | A completion the contract can log is handled exactly if the pending transfer was started by an answered draft. |
| Consistency.FiledIff | indexer/internal/service/contract_events.go:23-294 | A mint or TransferInit that changes anything shows on its own token if and only if its transaction was sent to the contract that logged it. |
| Chronicle.LogCarried | sol-contracts/contracts/FilemarketCollectionV2.sol:233-409 | Whatever a log says of a transfer - parties, prices, key, password - is what the contract last held of it. |
| Chronicle.OwnerMoves | sol-contracts/contracts/FilemarketCollectionV2.sol:320-394 | The owner is the minted one until a transfer finishes or a fraud is rejected, and then that transfer's recipient. |
| Chronicle.LedgerTold | indexer/internal/service/contract_events.go:23-1062 | A token's ledger holds of every transfer, pending or ended, exactly what the contract's logs make of it: data, price, every status and order status with its transaction, and whether fraud was approved. |
| Chronicle.EndedTransferKept | indexer/internal/service/contract_events.go:762-1062 | An ended transfer keeps for good the parties, key and password the contract held when it ended, its last status and that log's transaction, and is marked as fraud exactly if that log approved the fraud. |
| Chronicle.RowsTold | indexer/internal/repository/transfers.go:708-766 | The same of the rows: every transfer row, its order's row and both status histories. |
| Chronicle.EndedRow | indexer/internal/repository/transfers.go:728-756 | Every ended transfer has its row, and it keeps what the contract held. |
| Chronicle.TokensTold | indexer/internal/repository/tokens.go:318-350 | The tokens table holds exactly the minted tokens with owner and mint transaction, and there are as many transfer rows as transfers started. |
| Chronicle.EveryLogInTheRows | indexer/internal/service/contract_events.go:236-1062 | For every log there is the transfer row holding what it said, and a status row of the status it calls for with its transaction. |
| Journeys.StatusHistories | sol-contracts/contracts/FilemarketCollectionV2.sol:233-409 | Every transfer went through one of the listed status histories: draft, completion, key, password, then finished or reported and decided, or cancelled before a report; only the last may still be on its way. |
| Dedup.RepeatSwallowed | indexer/internal/repository/transfers.go:768-789 | The first log that repeats the token id, transaction and status of an earlier one, of any collection, is swallowed without an error. |
| Dedup.NothingSwallowedIff | indexer/internal/repository/transfers.go:768-789 | Over every history the contracts can produce and the indexer can follow, a clean pass leaves each token where its own logs leave it if and only if no log repeats another so. |
| Dedup.SharedId | indexer/internal/repository/transfers.go:768-789 | A concrete history: one transaction drafts token 5 of two collections, and the second transfer never shows. |
| Replay.CoveredLog | indexer/internal/service/contract_events.go:247-253 | A log its token's ledger already covers changes nothing, whatever answers or fails outside. |
| Replay.NextLog | indexer/internal/service/contract_events.go:236-1062 | The next log of a token advances its ledger as the clean pass does, or errs if it cannot be followed. |
| Replay.LogTracked | indexer/internal/service/contract_events.go:23-1062 | Handling a log keeps track of every token, and with the calls answering errs exactly if it is taken in and cannot be followed. |
| Replay.BlockTracked | indexer/internal/service/service.go:1451-1488 | The same for a block, new or replayed, on tables that may be ahead of it. |
| Replay.RunSourced | indexer/internal/service/service.go:1451-1583 | In every state of every run each token and each status row comes from a log that a committed attempt took in. |
| Replay.RunTracked | indexer/internal/service/service.go:1451-1583 | As long as no log was taken in ahead of an earlier one of its token, every token stands where a clean pass over its taken logs leaves it. |
| Replay.NothingMayBeMissing | indexer/internal/service/service.go:1451-1583 | Of any run whatever: the tables are those of the clean pass so far only if every log so far was taken in. |
| Replay.ExactlyOnceInOrder | indexer/internal/service/service.go:1451-1583 | For runs that take in each token's logs in their order, the follower as far as it ever was: tables equal to one clean pass if and only if every log so far was taken in. |
| Delivery.NeverBackInOrder | indexer/internal/service/service.go:1559-1583 | A run that never goes back over a lost round takes in each token's logs in their order. |
| Delivery.ExactlyOnce | indexer/internal/service/service.go:1451-1583 | The same for all runs with failures, lost acknowledgements, rounds stepped over and restarts that never go back over a lost round. |
| Delivery.CaughtUpIsFaithful | indexer/internal/service/service.go:1451-1583 | Such tables mirror the contracts. |
| Delivery.LostRound | indexer/internal/service/service.go:1565-1570 | No run, whatever it does, has the right tables once it is past a round with something to index that none of its steps committed. |
| Delivery.MintsDecide | indexer/internal/service/service.go:684-709 | When only rounds without indexed logs are stepped over, nothing is missing if and only if no mint is. |
| Delivery.ExactlyOnceSilent | indexer/internal/service/service.go:1451-1583 | Then the tables are exactly once if and only if every minted token was looked up successfully by some committed attempt. |
| Delivery.ExactlyOnceWhenLookupsAnswer | indexer/internal/service/service.go:1451-1583 | And if no committed attempt fails a mint's block lookup, they are. |
| Stuck.NextBlockFailsIff | indexer/internal/service/service.go:1559-1583 | With the calls answering, the next block of a reachable follower fails if and only if it takes in a log that cannot be followed. |
| Stuck.NextBlockCommits | indexer/internal/service/service.go:1559-1583 | Over a legal history no reachable follower is blocked for want of a row. |
| Stuck.NoAttemptCommits | indexer/internal/service/contract_events.go:373-376 | No attempt at a block with a log that cannot be followed commits while the log's token is in the tables. |
| Stuck.StuckForever | indexer/internal/service/service.go:1538-1583 | A follower that holds the token before such a block never gets past it, whatever it does. |
| Histories.DroppedMint | indexer/internal/service/service.go:684-709 | A concrete run commits and records a block whose mint is missing from the tables. |
| Histories.SkippedRoundIsLost | indexer/internal/service/service.go:1565-1570 | A concrete run steps over a round with a mint and loses it. |
| Histories.OutOfOrder | indexer/internal/service/service.go:1559-1583 | A concrete run goes back over a lost round, takes in every log in the end, and still has other tables than a clean pass. |
| Histories.UnansweredDraftFails | indexer/internal/service/service.go:437-447 | A concrete history with a draft started past the exchange, which the contracts can produce and no clean pass gets through. |
| Histories.NamelessCompletionFails | sol-contracts/contracts/FilemarketCollectionV2.sol:268-285 | The same with the completion of a transfer started without a recipient. |
| Follower.Head | indexer/pkg/ethclient/ethclient.go:138-180 | An answer counts if no head was accepted yet or it is not below the last one; the head is the greatest that counts, and exists if any does. |
| Follower.HeadRepeats | indexer/pkg/ethclient/ethclient.go:138-180 | A poll whose greatest answer is the head it had gives that head again. |
| Follower.EthClient.GetLatestBlockNumber | indexer/pkg/ethclient/ethclient.go:138-180 | The loop over nodes returns that head and remembers it. |
| Follower.HeadsNeverDecrease | indexer/pkg/ethclient/ethclient.go:138-180 | Over all polls of one process the head never decreases. |
| Follower.Follower.CheckSingleBlock | indexer/internal/service/service.go:1559-1583 | Whatever happens is one step of a run; the position moves by one, and only past a block that committed or a round the node cannot serve. |
| Follower.Follower.CheckBlock | indexer/internal/service/service.go:1538-1557 | From any position the loop ends, visits consecutive blocks, and its steps form a run; from at or below the head it never gets past it, it succeeds exactly if it gets to the head by committed blocks, and at the head there is nothing to do. |
| Follower.Follower.ListenBlockchain | indexer/internal/service/service.go:1490-1536 | One process continues the run of the processes before it, from the recorded block, or else from the polled head; after any number of them, with no restart going back over a lost round, the tables are those of one clean pass if and only if every log so far was taken in. |
| Runs.RestartsWhereRecorded | indexer/internal/service/service.go:1559-1583 | A restart goes back exactly to where the last recorded step had got. |
| Runs.AllRecorded | indexer/internal/service/service.go:1490-1536 | If every step that gets on is recorded, a restart goes back nowhere. |
| FloorPrice.ParseDecimal | indexer/internal/repository/orders.go:618-622 | A price survives being stored as decimal text. |
| FloorPrice.DecimalDigits | indexer/internal/repository/orders.go:618-622 | The text is in base ten, last digit last, without zeros in front. |
| FloorPrice.OrderIsNumeric | indexer/internal/repository/collections.go:219-232 | Ordering decimal text by length and then as text is the numeric order. |
| FloorPrice.FloorIsLeast | indexer/internal/repository/collections.go:178-232 | The chosen price is offered and at most every offered price; it is 0 exactly for lack of offers or an offer at 0. |
| FloorPrice.OfferIsAsked | indexer/internal/repository/collections.go:178-191 | Every order the filter lets through belongs to a pending transfer of the contracts, at the answered price. |
| FloorPrice.AskedIsOffer | indexer/internal/repository/collections.go:178-191 | Every answered pending transfer still waiting for its buyer or the buyer's key is let through, unless rejected or hidden. |
| FloorPrice.FloorIsContracts | indexer/internal/repository/collections.go:170-251 | The floor price is the least answer for a pending transfer of the collection that is neither rejected nor hidden, and 0 if there is none. |
| FloorPrice.FloorIsLeastOrder | indexer/internal/repository/collections.go:170-251 | At the end of every block it is the least price of the exchange's own orders for the collection's pending transfers without a buyer's key, leaving out first transfers of FileBunnies tokens, rejected tokens and hidden orders, and 0 if there is none. |
| Exchange.PendingAnswered | indexer/internal/service/service.go:393-455 | At the end of every block each pending transfer was answered with its own order. |
| Exchange.PaidAndAnswered | sol-contracts/contracts/FilemarketExchangeV2.sol:158-182 | At the end of every block the answers for a token's sales exceed what the exchange paid out by exactly what the transfers drafted and sold within one block account for. |
| Exchange.PaidIsAnswered | indexer/internal/service/contract_events.go:358-362 | If no transfer is drafted and sold within one block, nothing is overstated. |
| Exchange.FlashSale | indexer/internal/service/contract_events.go:358-362 | A concrete block in which a sale at 100 was answered with 200. |
| Sales.VolumeByToken | indexer/internal/repository/collections.go:209-218 | The query over the status rows of a whole collection is the sum of its tokens' volumes. |
| Sales.RowAdds | indexer/internal/repository/collections.go:209-218 | One more order status adds its order's price if it says Finished and the token is of the collection and not rejected, and nothing otherwise. |
| Sales.SalesAreAnswers | indexer/internal/repository/collections.go:209-218 | The sales volume shown is the sum of the exchange's answers for the completed sales of exactly the tokens of the collection that are not rejected. |
| Sales.SalesArePaidIff | indexer/internal/repository/collections.go:209-218 | It is what the exchange paid out if and only if those excesses cancel out over the collection's tokens, as they do if no transfer is drafted and sold within one block. |
| Sequencer.Sequencer.constructor | indexer/pkg/sequencer/sequencer.go:36-41 | Starts from a seeded pool without timers. |
| Sequencer.Sequencer.ReleaseTokens | indexer/pkg/sequencer/sequencer.go:238-285 | Unless throttled, exactly the queue's leases older than the TTL return to the pool. |
| Sequencer.Sequencer.Count | indexer/pkg/sequencer/sequencer.go:190-202 | Counts the free ids after the release, which is its only effect. |
| Sequencer.Sequencer.Acquire | indexer/pkg/sequencer/sequencer.go:43-143 | Keeps a recent lease, or answers from memory on an empty pool, or leases a free id, stamps it, remembers it and marks the wallet's other leases for release. |
| Sequencer.Sequencer.DeleteTokenID | indexer/pkg/sequencer/sequencer.go:145-188 | Removes the id from the pool and, if leased, one lease with the wallet's memory of it. |
| Sequencer.AcquireIsSafe | indexer/pkg/sequencer/sequencer.go:43-143 | Acquire keeps ids exclusive, loses and invents none, and never reaches its "shouldn't happen" branch. |
| Sequencer.ReleaseIsSafe | indexer/pkg/sequencer/sequencer.go:238-285 | Release keeps ids exclusive and loses and invents none. |
| Sequencer.DeleteIsSafe | indexer/pkg/sequencer/sequencer.go:145-188 | Delete removes that id of that queue and nothing else, although it removes one lease only. |
| Sequencer.AlwaysExclusive | indexer/pkg/sequencer/sequencer.go:43-285 | In every state of every history no id is both free and leased, none is leased twice, and no Acquire reports a timer that should not exist. |
| Sequencer.Conservation | indexer/pkg/sequencer/sequencer.go:43-285 | Between any two points of a history a queue keeps exactly the ids not deleted in between. |
| Sequencer.DeletedForGood | indexer/pkg/sequencer/sequencer.go:145-188 | A deleted id is never free, leased, popped or kept again. |
| Sequencer.LeaseHolds | indexer/pkg/sequencer/sequencer.go:87-126 | A lease keeps its stamp until the TTL has passed, its holder is given another id, or it is deleted. |
| Sequencer.ExclusiveUntilExpiry | indexer/pkg/sequencer/sequencer.go:87-126 | A leased id is not popped again for anyone until more than the TTL less one second has passed, unless its holder moved on. |
| Sequencer.NoOldLease | indexer/pkg/sequencer/sequencer.go:238-285 | After a call that looks for them, no lease older than the TTL has a timer, and its id is free or handed out by that call. |
| Sequencer.MovingOnFrees | indexer/pkg/sequencer/sequencer.go:107-126 | Once a wallet is given another id, every other id it held in the queue is free at once, or free or handed out after the next call that looks there. |
| Sequencer.LooksAreKept | indexer/pkg/sequencer/sequencer.go:238-285 | The time of the last look is kept exactly by the calls that look, and a count that does not look changes nothing. |
| Sequencer.FreeStays | indexer/pkg/sequencer/sequencer.go:43-188 | A free id stays free until it is handed out or deleted. |
| Sequencer.OtherQueues | indexer/pkg/sequencer/sequencer.go:43-285 | A call on one queue leaves the ids, leases and memory of every other queue alone. |
| Sequencer.FreeIsFound | indexer/pkg/sequencer/sequencer.go:80-92 | While an id is free Acquire answers a lease, and EmptySet only to a wallet that remembers no id; a leased id was free or its lease had expired. |
| Sequencer.MemoryAfter | indexer/pkg/sequencer/sequencer.go:145-188 | A grant is remembered, deleting a leased id makes its holder forget it, and nothing else changes what is remembered. |
| Sequencer.ToldAgain | indexer/pkg/sequencer/sequencer.go:48-85 | An id a wallet keeps, or remembers over an empty pool, is the last one it was granted in the queue. |
| Sequencer.KeptIff | indexer/pkg/sequencer/sequencer.go:61-78 | Within the TTL a wallet that asks again keeps its id exactly while the switch timeout has not passed since the second of the grant. |
| Sequencer.AnswerHeldByOtherIff | indexer/pkg/sequencer/sequencer.go:43-143 | The id Acquire answers is another wallet's if and only if the pool is empty and another wallet holds the remembered id. |
| Sequencer.AnswerHeldIff | indexer/pkg/sequencer/sequencer.go:43-143 | It is the wallet's own if and only if the pool is not empty or the wallet still holds the remembered id. |
| Sequencer.AnswersInHistory | indexer/pkg/sequencer/sequencer.go:43-285 | Both in every history, and never both at once. |
| Sequencer.RememberedMayBeLeased | indexer/pkg/sequencer/sequencer.go:80-85 | A concrete history in which the empty-pool answer is another wallet's leased id. |
| Cbc.ThroughUndoes | autoseller/pkg/aes256cbc/aes256cbc.go:58-95 | CBC decryption undoes encryption and the reverse, for every key, vector and message of whole blocks; so does the block-by-block mode. |
| Cbc.EncryptChains | autoseller/pkg/aes256cbc/aes256cbc.go:90-92 | Every ciphertext block is the cipher of the plaintext block joined with the ciphertext block before it, the first with the vector. |
| Cbc.DecryptChains | autoseller/pkg/aes256cbc/aes256cbc.go:64-66 | Every plaintext block is the inverse cipher of the ciphertext block, joined with the ciphertext block before it. |
| Cbc.EachAlone | backend/src/bin/pbkdf2-encrypt.rs:50-59 | In the older mode every block goes through the cipher on its own, in both directions. |
| Cbc.XorByteBits | autoseller/pkg/aes256cbc/aes256cbc.go:90-92 | Joining is exclusive or, bit by bit: a byte cancels itself and zero changes nothing. |
| Cbc.EncryptBlocks | autoseller/pkg/aes256cbc/aes256cbc.go:90-92 | The chaining loop over a buffer computes CBC encryption. |
| Cbc.DecryptBlocks | autoseller/pkg/aes256cbc/aes256cbc.go:64-66 | The chaining loop over a buffer computes CBC decryption. |
| Cbc.StrictUnpadInvertsPad | backend/src/helpers.rs:256-259 | Strict unpadding yields d exactly for the padding of d. |
| Cbc.LenientExtendsStrict | autoseller/pkg/aes256cbc/aes256cbc.go:68-72 | Where strict unpadding succeeds the lenient one agrees, and exactly when it accepts more. |
| Container.EncryptAES256CBCPadded | autoseller/pkg/aes256cbc/aes256cbc.go:77-95 | Pads and encrypts; a bad key is refused and a bad vector panics. |
| Container.EncryptFile | autoseller/pkg/aes256cbc/aes256cbc.go:22-31 | Produces the container of the data. |
| Container.SealedLayout | autoseller/pkg/aes256cbc/aes256cbc.go:22-31 | 16 octets of vector, 64 of hash, and the chained blocks of the padded data. |
| Container.DecryptAES256CBCPadded | autoseller/pkg/aes256cbc/aes256cbc.go:58-75 | Refuses exactly a bad key or a last byte too large to be padding, panics exactly on anything but one or more whole blocks, and otherwise removes as many bytes as the last one says. |
| Container.DecryptFile | autoseller/pkg/aes256cbc/aes256cbc.go:35-56 | Returns d exactly if the file opens to d, and panics exactly on short or misaligned files. |
| Container.DecryptAes256Cbc | backend/src/helpers.rs:245-262 | Strict decryption with a 32-byte key and a 16-byte vector, an error otherwise. |
| Container.VerifyFileIntegrity | backend/src/helpers.rs:264-284 | True exactly for 32-byte keys and files that are the container of some data; panics exactly on short files. |
| Container.SealedOpens | packages/crypto/src/lib/aes.ts:7-66 | What TypeScript writes is the container, and every container opens to its data, in TypeScript and in Go. |
| Container.OnlySealedFilesOpen | packages/crypto/src/lib/aes.ts:34-66 | The strict reader accepts containers and nothing else. |
| Container.StrictImpliesLenient | autoseller/pkg/aes256cbc/aes256cbc.go:35-75 | Whatever the strict reader opens the Go reader opens to the same bytes. |
| Container.OpensBeyondIff | autoseller/pkg/aes256cbc/aes256cbc.go:35-75 | The Go reader opens a file that is no container if and only if it holds whole blocks whose last byte is at most 16 and is 0 or miscounts its padding, and what is left has the stored hash. |
| Container.UnpaddedOpens | autoseller/pkg/aes256cbc/aes256cbc.go:68-72 | Data of whole blocks ending in 0 and encrypted without padding opens in Go and nowhere else. |
| Container.RoundTrip | autoseller/pkg/aes256cbc/aes256cbc.go:22-56 | A file sealed in Go passes the Rust check and decrypts in Go to itself. |
| OlderFormat.MapBlocks | backend/src/bin/pbkdf2-encrypt.rs:50-59 | The loop puts every whole block through the cipher and leaves the rest zero. |
| OlderFormat.Encode | backend/src/bin/pbkdf2-encrypt.rs:32-61 | Writes the zero-padded contents and their hash, encrypted block by block. |
| OlderFormat.LeftPadded | backend/src/bin/pbkdf2-encrypt.rs:40-41 | Fewer zeros than a block, then the contents, in whole blocks. |
| OlderFormat.EncodedLayout | backend/src/bin/pbkdf2-encrypt.rs:40-59 | Every block of zeros, contents and hash is enciphered on its own. |
| OlderFormat.CheckFile | backend/src/helpers.rs:216-241 | Compares the trailer with the hash of the rest; refuses bad keys and panics on short files. |
| OlderFormat.Decode | backend/src/bin/pbkdf2-decrypt.rs:31-66 | Strips the zeros on the left; panics exactly on a bad key, a short file, a wrong hash, or zeros reaching into the trailer. |
| OlderFormat.EncodedPassesCheck | backend/src/helpers.rs:216-241 | The check is true on everything the encoder writes. |
| OlderFormat.RoundTripIff | backend/src/bin/pbkdf2-decrypt.rs:57-66 | The decoder gives a file back exactly if its first byte is not zero, or it is empty and its hash does not begin with zero. |
| OlderFormat.LeadingZeroLost | backend/src/bin/pbkdf2-decrypt.rs:57-66 | A file with one leading zero byte comes back without it. |
| OlderFormat.EncodeThenDecode | backend/src/bin/pbkdf2-decrypt.rs:39-66 | The same for the encoder, the check and the decoder one after the other. |
| Hkdf.HkdfExpand | packages/crypto/src/lib/hkdf-sha512.ts:43-57 | The loop computes the joined blocks cut at the length, and throws exactly beyond 256 hash lengths. |
| Hkdf.ExpandChains | packages/crypto/src/lib/hkdf-sha512.ts:43-57 | The standard's output is a chain: each 64 octets are the hash of the 64 before them, the info and the counter octet. |
| Hkdf.AgreesWithStandard | packages/crypto/src/lib/hkdf-sha512.ts:43-57 | For whole octets up to 255 hash lengths the output begins with the standard's. |
| Hkdf.ExactlyStandardIff | packages/crypto/src/lib/hkdf-sha512.ts:56-56 | It is the standard's output exactly if whole hash blocks were asked for. |
| Hkdf.LongerOutput | packages/crypto/src/lib/hkdf-sha512.ts:55-56 | The 384 bits of an AES key and vector come as 64 octets, not 48. |
| Hkdf.OutputIsCut | packages/crypto/src/lib/hkdf-sha512.ts:48-56 | The output is the joined blocks cut to as many octets as bits were asked for. |
| Hkdf.BlockBeyond | packages/crypto/src/lib/hkdf-sha512.ts:44-54 | A 256th block is given out, made with the counter octet 0. |
| Derivation.NumberToBufferDecodes | packages/crypto/src/lib/utils.ts:19-22 | The buffer is the number in big-endian base 256. |
| Derivation.OctetByOctet | packages/crypto/src/lib/utils.ts:19-22 | One octet below 256, otherwise the quotient's octets and the remainder; no zero octet in front but for 0. |
| Derivation.NumberToBufferInjective | packages/crypto/src/lib/utils.ts:19-22 | Distinct naturals have distinct buffers. |
| Derivation.OneByteIff | packages/crypto/src/lib/utils.ts:19-22 | The buffer is one byte exactly for numbers below 256. |
| Derivation.InfoLayout | packages/crypto/src/lib/eft-derivation.ts:33-61 | The info strings are the type octet 1 or 2, the collection, and the numbers in that order. |
| Derivation.AesInfoInjective | packages/crypto/src/lib/eft-derivation.ts:33-36 | For addresses of one length the AES info determines collection and token. |
| Derivation.AesInfoIsNoRsaInfo | packages/crypto/src/lib/eft-derivation.ts:33-61 | No AES info equals an RSA info. |
| Derivation.RsaInfoInjective | packages/crypto/src/lib/eft-derivation.ts:57-61 | Below deal number 256 the RSA info determines collection, token and deal. |
| Derivation.RsaInfoCollision | packages/crypto/src/lib/eft-derivation.ts:57-61 | Token 1 with deal 256 and token 257 with deal 0 share their info. |
| Derivation.DealBoundIsExact | packages/crypto/src/lib/eft-derivation.ts:57-61 | A bound on deal numbers makes the RSA info injective if and only if it is at most 256. |
| Derivation.DerivedKeysAreStandard | packages/crypto/src/lib/eft-derivation.ts:27-63 | The AES key, the vector and the RSA seed are the standard's octets. |
| Sessions.AuthStore.GetJwtTokenNumber | authserver/internal/repository/auth.go:68-98 | The scan returns the next number. |
| Sessions.Next | authserver/internal/repository/auth.go:68-98 | 0 for no session, otherwise the least unused number above the smallest in use. |
| Sessions.SignInNumber | authserver/internal/repository/auth.go:68-98 | A sign-in gets 0 if no session of the address stands, and otherwise the first number after its smallest standing one that does not stand. |
| Sessions.AuthStore.InsertJwtToken | authserver/internal/repository/auth.go:100-110 | Inserts, or fails on a taken key and changes nothing. |
| Sessions.AuthStore.GenerateTokens | authserver/internal/service/auth.go:210-252 | Inserts both rows, and succeeds exactly if both keys are free. |
| Sessions.AuthStore.AuthBySignature | authserver/internal/service/auth.go:127-137 | Where access and refresh numbers agree, sign-in succeeds with the next access number and both rows are written; a failure leaves the table as it was. |
| Sessions.AuthStore.RefreshJwtTokens | authserver/internal/service/auth.go:174-208 | Never fails on the table and replaces both rows of that session. |
| Sessions.AuthStore.Logout | authserver/internal/service/auth.go:315-332 | Drops both rows of that session only. |
| Sessions.AuthStore.FullLogout | authserver/internal/service/auth.go:334-351 | Drops every row of that address only. |
| Sessions.AuthStore.GetUserByJwtToken | authserver/internal/service/auth.go:254-313 | Accepts exactly the claims whose secret is stored for the purpose asked for and whose expiry has not passed. |
| Sessions.AlwaysPaired | authserver/internal/service/auth.go:210-252 | In every reachable table each address has the same access and refresh numbers. |
| Sessions.OnlyIssuedAccepted | authserver/internal/service/auth.go:254-313 | Whatever is accepted carries the secret of a standing issue for that address, number and purpose. |
| Sessions.AcceptedIff | authserver/internal/service/auth.go:174-351 | With distinct secrets, a token with an issued secret is accepted exactly for its purpose and session, while not refreshed, logged out or fully logged out since, and not expired. |
| Sessions.IssuedTokenWorks | authserver/internal/service/auth.go:210-313 | A handed-out token works exactly for its own purpose while standing, up to its expiry truncated to seconds and never after it. |
| Sessions.NeverAcceptedAgain | authserver/internal/service/auth.go:174-351 | Once its session was ended a token is never accepted again, whatever follows. |
| Nonces.Autoseller.constructor | autoseller/internal/autoseller/autoseller.go:156-173 | A round starts at the account's pending nonce with nobody in flight. |
| Nonces.Autoseller.LaunchNext | autoseller/internal/autoseller/autoseller.go:174-179 | Launching takes a slot and starts the next job. |
| Nonces.Autoseller.TakeNonce | autoseller/internal/autoseller/autoseller.go:426-428 | Taking the mutex hands out the counter and advances it. |
| Nonces.Autoseller.Approve | autoseller/internal/autoseller/autoseller.go:439-458 | On every answer the mutex is released, the counter stays advanced exactly if a transaction is on its way, and only other failures are errors. |
| Nonces.Autoseller.Finalize | autoseller/internal/autoseller/autoseller.go:375-394 | On every answer the mutex is released; a transaction already in the pool is an error and gives its nonce back. |
| Nonces.Autoseller.Leave | autoseller/internal/autoseller/autoseller.go:178-180 | Leaving frees the slot. |
| Nonces.FewInFlight | autoseller/internal/autoseller/autoseller.go:169-201 | In every moment of every interleaving at most four workers are in flight, while fewer are the next one can be launched, and at most one holds the mutex, which is free whenever nobody waits for an answer. |
| Nonces.NeverStuck | autoseller/internal/autoseller/autoseller.go:169-201 | Until every worker is finished some step is possible. |
| Nonces.RoundsEnd | autoseller/internal/autoseller/autoseller.go:169-201 | A round ends within four steps per job. |
| Nonces.ConsecutiveIff | autoseller/internal/autoseller/autoseller.go:361-394 | The nonces on their way are the starting nonce and its successors without repetition or gap, always when approving, and when finalizing exactly if no transaction follows one already in the pool. |
| Nonces.NextNonce | autoseller/internal/autoseller/autoseller.go:361-458 | Offers carry the pending nonce first, and then the next one exactly after a sent transaction or, approving, one already in the pool. |
| Nonces.NonceReused | autoseller/internal/autoseller/autoseller.go:380-387 | A concrete interleaving of two finalizing workers uses one nonce twice. |

## Left out

- Replay.NothingMayBeMissing: the converse for runs that go back over a lost round is not claimed; `Histories.OutOfOrder` shows it fails for some of them.
- Delivery.ExactlyOnce: claims runs that start from a recorded block; with no record the follower starts at the current head and earlier blocks are never indexed. It covers tokens, owners, transfers, orders and both status tables, not block numbers, likes or metadata.
- Tables.ActiveRowIsActive: the moderation clauses are not modelled; while a token is rejected the handlers do not find it and ignore its events.
- Effects.ActiveAgrees: likewise.
- FloorPrice.FloorIsLeast: a rejected collection has no row at all, hidden orders are named by token and transfer number, and text is compared character by character as every collation does for digits.
- Sequencer.Sequencer.Acquire: Redis commands succeed and each operation is atomic; key strings, their parsing and interleavings of commands are not modelled.
- Sessions.AuthStore.AuthBySignature: sign-in messages, their signatures and expiry, users, roles and profiles are not modelled.
- Sessions.AuthStore.GetUserByJwtToken: claims that do not parse, and the user's role, are not modelled.
- Container.EncryptFile: Go's append may reuse the spare capacity of the vector's or the data's backing array; results are modelled as values.
- Hkdf.AgreesWithStandard: lengths that are not whole octets, and the variant through the browser's own derivation, are not modelled.
- Derivation.NumberToBufferDecodes: numbers are naturals; JavaScript's are exact below 2^53 only.
- Nonces.ConsecutiveIff: one round at a time; each round starts again from the node's pending nonce, and rounds run one after the other.
- Indexer.Service.Dispatch: the mint of the FileBunnies collection, which updates a preloaded token row instead of inserting one, and the metadata loaded on its completions are not modelled; such a token counts as minted when its row is there.
- Which transactions reach the event parsers: transactions sent to no known contract are not looked at, so their logs are not part of a model history.
- Likes, access-token and exchange events, collections and their transfers, burns, token metadata, royalties and block-number columns: rows of their own that no modelled property reads.
- Deletions from the sequencer, websocket messages, e-mails and notifications sent by the handlers: they change no table.
- Retry with backoff: a retried call succeeds or fails. Timeouts and concurrent database transactions.
- The internals of AES, SHA, HMAC, RSA, ECDSA and JWT signing.
- HTTP and gRPC handlers, uploaders, IPFS, the frontend, moderation, profiles and paging by id text.
