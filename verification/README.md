# scan-service: models and proofs

scan-service indexes the Meter chain. It reads blocks from a node, keeps write-back caches in memory, and
writes them to a database window by window, so that a process which dies can be started again. This project
models the parts of it where state, interleaving or arithmetic are hardest to get right, and proves what they
guarantee. Where they do not guarantee what one would expect, it proves exactly when they do.

Code that changes state in place is modelled by classes and methods with loops. Each method is proved against
a function on values, and the theorems are lemmas about those functions. The protocols that may stop between
any two writes are state machines with one step per awaited write.

| File | What it models |
|---|---|
| `Common.dfy`, `Sums.dfy` | types shared by the components, and sums over maps |
| `LogTraverser.dfy`, `LogReading.dfy`, `LogExecutions.dfy` | the walk that rebuilds the one order of events and transfers from a call tree and two lists, which lists it restores, and executions as the machine runs them |
| `TxOutputs.dfy` | its caller, which numbers the logs of every clause |
| `PosImport.dfy` | the PoS importer with crashes between any two documents written, its cleanup and its genesis processing |
| `PosTables.dfy`, `PosAccounts.dfy`, `PosBlocks.dfy`, `PosRounds.dfy`, `PosProgress.dfy` | what its tables, its accounts and its block rows keep, from a database at rest and from an empty one, by how much its head goes up, and that it gets to the best block |
| `PosFirstImport.dfy`, `PosFirstAccounts.dfy` | the import before the first head: when it can end, and when it gets accounts wrong |
| `Reviewer.dfy`, `ReviewProgress.dfy` | the block reviewer running next to the importer on the same tables, and that it catches up |
| `PowImport.dfy` | the PoW importer, which may die at every await |
| `NftState.dfy`, `NftLedger.dfy`, `NftCache.dfy` | the NFT cache: operations on values, the comparison with a plain ledger, and the objects in place |
| `NftRecovery.dfy` | a save of the NFT cache that dies, the cleanup, and the second scan |
| `AccountBalances.dfy`, `AccountReplay.dfy`, `AccountRows.dfy`, `Circulation.dfy`, `AccountCache.dfy` | the account cache and the block processing that drives it: what a block does to each account, the rows it stores, and the zero address in the totals |
| `TokenBalances.dfy`, `TokenNfts.dfy`, `TokenBalanceCache.dfy` | the token balance cache, and the NFT holdings beside the balances |
| `TokenRecovery.dfy`, `TokenReimport.dfy` | a save of the token balances that dies, its cleanup, and the second import of the window |
| `BlockCache.dfy`, `BlockCalls.dfy` | the LRU cache in front of the node, with concurrent lookups, and that calls return |
| `Decimals.dfy`, `InternalTxs.dfy` | the queue walk that names and records internal transactions |
| `TxDigests.dfy` | the digests of a transaction |
| `EpochStats.dfy` | the matching of blocks to round-robin proposers |
| `SortKeys.dfy`, `HolderPages.dfy` | the rankings of balances stored as decimal strings, and how pages of them fit together |
| `Ownership.dfy` | the replay of ownership events |

## Where the code and the expectation part

Each of these is a lemma with a concrete input or an exact condition.

- Logs: the walk returns a list if, and only if, its call tree reads the list in one pass in which after each run of
  events of a frame the next event in the list is not of the same contract (`LogReading.IteratorReads`). So an
  execution is restored exactly if its call tree reads it so (`LogReading.RestoredIff`). A contract that emits, pays
  another and emits again is put in the wrong order (`LogTraverser.UnseparatedRoundTripFails`).
- First import: without a stored head there is no cleanup. After a crash before the first head, a head can still
  be stored exactly if no row was left and no allocated account was created (`PosFirstImport.HeadStoredIff`); on
  every chain the first import can die otherwise (`PosFirstImport.AnyFirstImportCanDie`).
- First accounts: some run from an empty database gets an account wrong exactly if an allocated account has
  something bounded, or nothing is allocated and a first window changes accounts without having a row to save
  before them (`PosFirstAccounts.AccountsSafeIff`).
- Token balances: a row that a dying save has deleted is not restored by the cleanup
  (`TokenRecovery.RecoveredIff`). The second import of the window makes up for it exactly if a repair comes upon the
  holder in a block with no more to add, that is, one whose changes after the repair sum to 0
  (`TokenReimport.ReimportedIff`); with at most one change per block, exactly if the holder ever falls below what it
  had at the head (`TokenReimport.HealedIff`).
- ERC1155: a transfer of a whole stored holding credits the recipient and gives the sender's saved holding back
  (`NftLedger.TransferAgreesIff`). A mint forgets the holder's unsaved change (`NftLedger.MintAgreesIff`). A
  transfer of a whole minted holding can leave two records for one unique key
  (`NftLedger.MintedWholeTransferSavesIff`), and until the save the recipient can spend none of it
  (`NftLedger.RecipientCannotSpend`) while the sender still can (`NftLedger.SenderSpendsRecipients`).
- NFT recovery: the cleanup deletes by the block of the mint, which copies of a record keep. Tokens recover all the same
  (`NftRecovery.TokensRecover`). An ERC1155 holder does exactly if the crash left its row as it was at the head
  (`NftRecovery.AmountsRecoverIff`); a copied record that was saved is credited again (`NftRecovery.CreditedTwice`).
- Account totals: a burn credits the zero address, so the sum of all accounts and the calculated total are apart by
  what was burnt and, for MTR, by rewards minus fees (`Circulation.TotalsApart`).
- MTR: bounding and unbounding do not check the MTR balances (`AccountBalances.BoundMtrNegativeIff`).
- Block cache: an id that is not on the chain is answered with the cached block of its number
  (`BlockCache.HitIsFetchIff`).
- Digests: the unique index refuses a system transaction in which a script-engine clause makes a transfer from the zero
  address to the clause's own target (`TxDigests.IndexAcceptsIff`).
- Proposers: the matching is the longest one. It is the true one exactly if no proposer had let an earlier turn of
  its own pass since the block before (`EpochStats.ReportIsTrueIff`).
- Holder pages: requests sort anew, and their pages fit together exactly if holders with the same balance are on one
  page (`HolderPages.PagesFitIff`); with a tie across two pages a reader may see one of the two twice
  (`HolderPages.TieAcrossPages`).
- Token pages: a page of one holder's tokens is cut before it is sorted. The pages rank across exactly if the stored
  order already does between pages (`HolderPages.PagesOfTokensRankedIff`, and an input in `HolderPages.SmallBalanceFirst`).
- Ownership: scanning a window twice is scanning it once exactly if every final owner is left by no transfer of the
  window or led back to by those after its first departure (`Ownership.RescanTableIff`); in a chain of transfers it
  always is (`Ownership.RescanIsIdempotent`).

## Model

| member | source | states |
|---|---|---|
| `LogTraverser.Walker.YieldEvents` | src/utils/log-traverser.ts:78-86 | advances the event counter over the run of events at the address, yielding each, exactly as `Drain` does on values |
| `LogTraverser.Walker.YieldHeader` | src/utils/log-traverser.ts:18-77 | the value transfer and the master event of a frame, with every mismatch that throws |
| `LogTraverser.Walker.Traverse` | src/utils/log-traverser.ts:14-118 | the recursive walk over shared counters is `WalkTree` on values, throwing where it throws and keeping what it had yielded |
| `LogTraverser.Iterate` | src/utils/log-traverser.ts:10-125 | the driven generator returns the items of a walk that used both lists up, and throws otherwise; an undefined tracer throws unless both lists are empty |
| `LogTraverser.DrainStops` | src/utils/log-traverser.ts:78-86 | after a run of events the next event is at another address |
| `LogTraverser.WalkPrinted` | src/utils/log-traverser.ts:14-118 | from any position in the lists, the walk of an annotated, separated tree consumes and yields exactly what the annotation prints |
| `LogTraverser.WalkIsPrinted` | src/utils/log-traverser.ts:14-118 | the converse: every walk that does not throw is the print of some separated annotation of the tree |
| `LogTraverser.RoundTrip` | src/utils/log-traverser.ts:10-125 | printing an execution, splitting the print into events and transfers, and walking the bare call tree gives the print back |
| `LogTraverser.IteratorCharacterised` | src/utils/log-traverser.ts:10-125 | the walk returns a list if and only if its projections are the two given lists and a separated annotation of the tree prints it |
| `LogTraverser.TransfersArePreorderPrefix` | src/utils/log-traverser.ts:14-123 | the transfers of a successful walk are a prefix of the pre-order list of paying frames, static calls pruned |
| `LogReading.IteratorReads` | src/utils/log-traverser.ts:10-125 | the walk returns a list if and only if its projections are the two given lists and the call tree reads it in one pass: payments and master events where they come next, blocks that end before an event of another contract |
| `LogReading.RestoredIff` | src/utils/log-traverser.ts:78-107 | an execution is restored exactly when its own call tree reads what it logged in one pass |
| `LogReading.TreeKeepsStep` | src/utils/log-traverser.ts:14-118 | from any position, the walk over two lists stays on the way to a list exactly as long as the pass over that list goes through |
| `LogExecutions.ExecutionIsRestored` | src/utils/log-traverser.ts:10-125 | executions with a running contract: calls and creations run as their target, delegated and called code as the caller, calls to the Prototype contract as the decoded self, and every event is of the contract that runs; if after each block the next event is of another contract, walking the trace over the two lists gives back what was logged |
| `LogExecutions.RunnerIsContract` | src/utils/log-traverser.ts:30-76 | the address whose events a frame waits for is the contract that runs in it |
| `LogExecutions.EnteringIsHeader` | src/utils/log-traverser.ts:18-77 | what entering a frame logs, case by case, is the payment and the master event that the walk takes for it |
| `LogExecutions.ApartIsSeparated` | src/utils/log-traverser.ts:78-107 | an execution in which after every block the next event is of another contract is one whose blocks the walk can tell apart, whatever is logged after it |
| `LogTraverser.AnotherAnnotationWillDo` | src/utils/log-traverser.ts:98-107 | an execution that is not separated and is restored all the same |
| `LogTraverser.UnseparatedRoundTripFails` | src/utils/log-traverser.ts:98-107 | an execution whose order the walk gets wrong, because a contract emits on both sides of a payment |
| `TxOutputs.NumberClause` | src/cmd/pos.cmd.ts:1614-1662 | the four branches, with the restart of the numbering after a throw, number the chosen order |
| `TxOutputs.GetTxOutputs` | src/cmd/pos.cmd.ts:1598-1666 | one output for every clause; with events and transfers it reads, by index, as the list that the trace it sees reads in one pass, and if that trace reads none the transfers are first; the trace seen is the clause's own if fetched, else that of the nearest earlier clause that has one; the traces returned are exactly those fetched, with their clauses |
| `TxOutputs.OutputIsOrdered` | src/cmd/pos.cmd.ts:1614-1662 | the same for the output of one clause, whatever its index |
| `TxOutputs.ItemOrderKeepsLists` | src/cmd/pos.cmd.ts:1614-1662 | whatever the tracer, the order chosen holds exactly the clause's events and transfers, each list in its order |
| `TxOutputs.NumberingIsBijective` | src/cmd/pos.cmd.ts:1616-1647 | the indexes are exactly 0 to n-1, each once, increasing within either list |
| `TxOutputs.NumberingMerges` | src/cmd/pos.cmd.ts:1616-1647 | reading both lists by index gives the order back |
| `TxOutputs.OutputIsWellIndexed` | src/cmd/pos.cmd.ts:1614-1662 | for any tracer, a failed walk included, the numbering is a bijection onto 0 to n-1 that keeps both lists and follows the chosen order |
| `PosTables.StepKeepsRows` | src/cmd/pos.cmd.ts:366-572 | every step, restarts, cleanup and genesis processing included, keeps the rows right and the head from going down; only a crash before the first head can leave a row in the way |
| `PosTables.LeftRowStays` | src/cmd/pos.cmd.ts:465-572 | a row in the way stays in the way under every step |
| `PosTables.RunsKeepRows` | src/cmd/pos.cmd.ts:366-463 | in every state of every run, from a database at rest and from an empty one, the rows are right or a row is in the way |
| `PosTables.TablesAreCrashConsistent` | src/cmd/pos.cmd.ts:314-329 | at any moment of any such run the rows up to the head are those of a fault-free import, and between saves there are no others, unless no head is stored and a row is in the way |
| `PosTables.NoDuplicateKeys` | src/cmd/pos.cmd.ts:465-572 | an insert of a save meets its own row already stored only if no head is stored and a row is in the way |
| `PosTables.HeadNeverDecreases` | src/cmd/pos.cmd.ts:562-572 | the stored head is monotone over every such run |
| `PosTables.LeftRowIsForEver` | src/cmd/pos.cmd.ts:369-372 | once a row of the first window is left without a head, of block 0 or of a window of a hundred, it is there for ever and no head is ever stored |
| `PosTables.CrashKeepsRows` | src/cmd/pos.cmd.ts:369-372 | a crash keeps the rows right or, before the first head, leaves a row in the way |
| `PosBlocks.StoredBlocksAreWhole` | src/cmd/pos.cmd.ts:465-572 | in every state of every run, above the head too and in the middle of a save, a crash or a cleanup, a block whose row is stored has all of its other rows |
| `PosBlocks.InsertKeepsWhole` | src/cmd/pos.cmd.ts:560-571 | a block row is inserted when all other rows of its block are there |
| `PosBlocks.DeleteKeepsWhole` | src/cmd/pos.cmd.ts:314-329 | the cleanup deletes a row of another table only when no block row above the head is left |
| `PosRounds.HeadGoesUpBy` | src/cmd/pos.cmd.ts:383-439 | with more than a hundred blocks missing when its round began, the head goes up once, by a hundred; otherwise block by block, to no more than the best block there was |
| `PosProgress.OwnStepIsNearer` | src/cmd/pos.cmd.ts:366-463 | while the chain stands still every step of the process, of the cleanup and the repairs too, lowers a measure, and the head does not go down |
| `PosProgress.OwnStepExists` | src/cmd/pos.cmd.ts:366-463 | below the best block the process always has a next step |
| `PosProgress.ImporterCatchesUp` | src/cmd/pos.cmd.ts:366-463 | from any state of any run in which a head is stored, however it has crashed, the importer's own steps lead to a head at the best block with all rows up to it |
| `PosAccounts.StepKeepsAccounts` | src/cmd/pos.cmd.ts:366-572 | every step keeps the accounts right; before the first head, if they are safe, only a crash that blocks the import does not |
| `PosAccounts.RunsKeepAccounts` | src/cmd/pos.cmd.ts:366-463 | in every state of every run the accounts are right or the import is blocked, from a database at rest on every chain, and from an empty one on the safe chains |
| `PosAccounts.AccountsRecover` | src/cmd/pos.cmd.ts:330-337 | while a head is stored, accounts not updated after it are right at any moment, and after the repair of the late ones every account has the chain's balances at the head |
| `PosAccounts.GenesisStepKeepsAccounts` | src/cmd/pos.cmd.ts:2024-2059 | creating the allocated accounts with zero balances and saving them with the chain's ends with all of them right, if nothing of them is bounded |
| `PosAccounts.TouchKeepsAccounts` | src/types/accountCache.ts:93-106 | loading or creating an account, its row stored at once, and changing it in the cache keeps the invariant |
| `PosAccounts.SaveAccountKeepsAccounts` | src/types/accountCache.ts:216-222 | saving the account documents one by one keeps the invariant |
| `PosAccounts.FixLateKeepsAccounts` | src/cmd/pos.cmd.ts:233-278 | repairing a late account to the chain's balances at the head keeps the invariant |
| `PosAccounts.RepairIsExact` | src/cmd/pos.cmd.ts:233-278 | a repair gives an account the chain's balances at the head; a document that has them already is not saved and keeps its last update, and no other document is written |
| `PosAccounts.NothingSavedYet` | src/cmd/pos.cmd.ts:560-565 | on a safe chain with nothing allocated, a first save that dies with all tables empty leaves no account changed |
| `PosFirstImport.ImportToEnd` | src/cmd/pos.cmd.ts:402-439 | from anywhere in a first round begun with the present best block the importer's own steps lead to the moment before the head is stored |
| `PosFirstImport.LeftAloneStoresHead` | src/cmd/pos.cmd.ts:383-439 | an import that is left alone, with nothing in its way, stores the head of the first window |
| `PosFirstImport.HeadStoredIff` | src/cmd/pos.cmd.ts:369-384 | after a crash before the first head some continuation stores a head exactly if all tables are empty and no allocated account is stored |
| `PosFirstImport.AnyFirstImportCanDie` | src/cmd/pos.cmd.ts:562-568 | on every chain some run from an empty database leaves the row of block 0 without a head |
| `PosFirstAccounts.BoundedIsForgotten` | src/cmd/pos.cmd.ts:2033-2035 | if an allocated account has something bounded, some run stores a head with that account wrong |
| `PosFirstAccounts.SilentCountsTwice` | src/cmd/pos.cmd.ts:560-565 | if nothing is allocated and the first window changes an account but has no row to be saved before the accounts, some run counts the window twice and stores a head |
| `PosFirstAccounts.AccountsSafeIff` | src/cmd/pos.cmd.ts:383-572 | some run from an empty database stores a head with an account wrong exactly if something allocated is bounded, or nothing is allocated and a first window changes an account without a row to be saved before the accounts |
| `Reviewer.ReviewStepKeepsInv` | src/cmd/blockReviewer.ts:91-162 | every read and write of either process, the three of a round that finds nothing included, keeps the invariant of both, and the reviewer's head does not go down |
| `Reviewer.ReviewHeadNeverDecreases` | src/cmd/blockReviewer.ts:146-160 | the reviewer's head is monotone over every interleaving |
| `Reviewer.FindBlockIsNext` | src/repo/block.repo.ts:65-73 | a row found within the round's end is the chain's next block with transactions, not merely the next one stored |
| `Reviewer.FindNothingMeansNothing` | src/cmd/blockReviewer.ts:135-151 | when the query finds nothing up to the round's end, the chain has nothing there either |
| `Reviewer.EndKeepsReview` | src/cmd/blockReviewer.ts:135-151 | a round that found nothing reads its last block and stores its head later, whatever the importer does in between |
| `Reviewer.CompletedBlocksExact` | src/cmd/blockReviewer.ts:124-162 | with the importer on a database at rest or an empty one, the completed blocks are the blocks with transactions in (start, head], ascending, but for immediate repetitions and one pending block |
| `Reviewer.OnlyPendingIsRepeated` | src/cmd/blockReviewer.ts:152-160 | a step completes the next block with transactions, and repeats one only if it is the pending one |
| `Reviewer.LookupNeverFails` | src/cmd/scriptEngine.cmd.ts:478-483 | every transaction of a block being processed is stored, so the lookup that throws never fails |
| `Reviewer.GenesisIsThere` | src/cmd/blockReviewer.ts:49-67 | a reviewer that runs at head 0 has seen the row of the genesis block, and at no later moment is it gone |
| `ReviewProgress.OwnStepIsNearer` | src/cmd/blockReviewer.ts:91-162 | while the importer stands still every step of the reviewer lowers a measure, and its head stays below the importer's |
| `ReviewProgress.OwnStepExists` | src/cmd/blockReviewer.ts:103-162 | below the block before the importer's head the reviewer always has a next step |
| `ReviewProgress.ReviewerCatchesUp` | src/cmd/blockReviewer.ts:91-162 | from any state of any run with the reviewer below the importer's head, its own steps lead to the block before that head; then the blocks processed are exactly those with transactions in between |
| `ReviewProgress.FailureRepeats` | src/cmd/blockReviewer.ts:152-172 | repetitions do happen: after a block has been processed and before the head is stored, a failure, or a stop and a start, lets the reviewer's own steps process it once more |
| `ReviewProgress.TxBlocksAre` | src/cmd/blockReviewer.ts:124-134 | the list of blocks to process holds exactly the blocks with transactions above the start, ascending |
| `PowImport.DeleteTxKeepsInvIff` | src/cmd/pow.cmd.ts:98-101 | deleting a transaction keeps the invariant if and only if no block up to the head lists it |
| `PowImport.NothingAboveIsExact` | src/cmd/pow.cmd.ts:95-104 | with nothing above the head, the tables are exactly the import of blocks 1 to head |
| `PowImport.PowCmd.CleanUp` | src/cmd/pow.cmd.ts:95-104 | the deletions keep the invariant at every await; they are survived exactly with as many awaits as the one block that can be above the head takes, and then leave exactly the import up to the head |
| `PowImport.PowCmd.ProcessBlock` | src/cmd/pow.cmd.ts:50-62 | keeps the invariant at every await, is refused by no unique index, and is through exactly with the awaits that the block and its transactions take; then exactly one block more is imported |
| `PowImport.PowCmd.Round` | src/cmd/pow.cmd.ts:92-144 | a pass never lowers the head and never throws; it is survived exactly with the awaits it takes, and then reaches the best height, or a window further, with exactly that imported |
| `PowImport.EnoughIsEnough` | src/cmd/pow.cmd.ts:92-144 | five awaits a block and three a transaction are enough for a pass, from whatever the crashes have left |
| `PowImport.PowCmd.Run` | src/cmd/pow.cmd.ts:79-156 | any number of processes, each dying at any await, keep the invariant and never lower the head; however the others died, one that lives long enough reaches its best height, or a window further, with exactly that imported |
| `NftState.SaveIsReady` | src/types/nftCache.ts:257-309 | in every state of the invariant, no save can violate the unique index |
| `NftState.SavedTokenRow` | src/types/nftCache.ts:288-307 | after a save an ERC721 token has the one row its view names, or none when it was burnt |
| `NftState.SavedHolding` | src/types/nftCache.ts:288-307 | after a save a holder has a row exactly if it was minted in the window or stored before, and the row holds what the view said; documents of the zero address are deleted |
| `NftState.SaveKeepsView` | src/types/nftCache.ts:257-309 | a save and a clean change nothing in the view of any owner but the zero address |
| `NftLedger.Mint721Refines` | src/types/nftCache.ts:65-86 | a mint gives an unknown token its owner, and leaves everything as it was if the token is minted or stored |
| `NftLedger.Mint1155Exact` | src/types/nftCache.ts:88-111 | what a mint leaves the holder with, in every branch, including the loss of an unsaved change |
| `NftLedger.MintAgreesIff` | src/types/nftCache.ts:99-105 | a mint agrees with the plain ledger exactly when the holder's cached amount is the stored one |
| `NftLedger.Transfer721Exact` | src/types/nftCache.ts:113-155 | a transfer moves the token when it is cached or the sender has its row, moves no other token, and touches no holding |
| `NftLedger.CreditExact` | src/types/nftCache.ts:174-189 | the credit repeated three times in the code adds the amount to the recipient's view, whichever of row, updated or minted record holds it |
| `NftLedger.PartialTransferExact` | src/types/nftCache.ts:157-254 | a transfer of less than the holding to somebody else is that of the plain ledger |
| `NftLedger.WholeTransferExact` | src/types/nftCache.ts:215-233 | a whole holding that is not minted: the recipient is credited and the sender falls back to the saved row |
| `NftLedger.TransferAgreesIff` | src/types/nftCache.ts:213-254 | such transfers agree with the plain ledger exactly when something is left or nothing was saved |
| `NftLedger.SelfTransferExact` | src/types/nftCache.ts:157-254 | a transfer to oneself of less than the holding gains, keeps or loses the amount, depending on where the record is |
| `NftLedger.WholeSelfTransferExact` | src/types/nftCache.ts:171-233 | a transfer of the whole holding to oneself leaves a minted record as it was, and any other holder at the saved row |
| `NftLedger.RefusedTransferExact` | src/types/nftCache.ts:203-214 | a transfer of more than there is changes nothing |
| `NftLedger.MintedWholeTransferSavesIff` | src/types/nftCache.ts:171-172 | a whole minted holding keeps its key; the next save is accepted exactly when the recipient has no record yet |
| `NftLedger.MintedWholeTransferSaved` | src/types/nftCache.ts:171-172 | when that save is accepted it stores the whole holding under the recipient and nothing under the sender |
| `NftLedger.WholeMintedRenames` | src/types/nftCache.ts:171-172 | right after it the view is unchanged: the record has another owner under the sender's key |
| `NftLedger.RecipientCannotSpend` | src/types/nftCache.ts:195-206 | until the save, a recipient with nothing of its own can transfer nothing: every transfer is skipped |
| `NftLedger.MintGoesToRecipient` | src/types/nftCache.ts:95-98 | what is minted to the sender meanwhile is added to the recipient's record |
| `NftLedger.SenderSpendsRecipients` | src/types/nftCache.ts:163-193 | what the sender transfers meanwhile is taken from the recipient's record |
| `NftLedger.ReceivingTakesBack` | src/types/nftCache.ts:184-189 | when the sender is credited meanwhile, the record is the sender's again, with the recipient's amount |
| `NftLedger.OthersLeaveRecord` | src/types/nftCache.ts:157-255 | transfers between other holders leave the record and its owner as they are |
| `NftLedger.RenamedIsSaved` | src/types/nftCache.ts:257-309 | an accepted save stores the record's amount under the recipient, and nothing under the sender |
| `NftLedger.RunAgrees` | src/types/nftCache.ts:65-307 | over every run of events and saves the view is the plain ledger, given at each event the condition under which that event agrees |
| `NftLedger.WindowsDoNotMatter` | src/types/nftCache.ts:257-309 | the same events saved at different times end with the same stored owners and amounts |
| `NftCache.Cache.Mint721` | src/types/nftCache.ts:65-86 | the method on maps of objects is the operation on values |
| `NftCache.Cache.Mint1155` | src/types/nftCache.ts:88-111 | the method on maps of objects is the operation on values: a minted record is changed in place, a stored one is loaded anew |
| `NftCache.Cache.Transfer721` | src/types/nftCache.ts:113-155 | the method on maps of objects is the operation on values: the cached object changes its owner, or a loaded document enters `updated` |
| `NftCache.Cache.Credit` | src/types/nftCache.ts:174-189 | the method on maps of objects is the operation on values, also when the recipient's cached document is the sender's own object, and says which entries it does not touch |
| `NftCache.Cache.Transfer1155` | src/types/nftCache.ts:157-255 | the method on maps of objects is the operation on values, in all branches and under every alias between the sender's and the recipient's documents |
| `NftCache.Cache.TransferMinted` | src/types/nftCache.ts:163-193 | the branches of a minted sender: not enough, all of it, part of it |
| `NftCache.Cache.TransferWhole` | src/types/nftCache.ts:215-233 | the branch that renames the sender's document and forgets it |
| `NftCache.Cache.TransferPart` | src/types/nftCache.ts:234-254 | the branch that leaves something |
| `NftCache.Cache.SaveToDB` | src/types/nftCache.ts:257-309 | saving the documents one by one, in any order, ends with the table that `Saved` describes whenever the unique index allows it |
| `NftCache.Cache.Clean` | src/types/nftCache.ts:526-529 | empties both maps and leaves the table |
| `NftRecovery.RestartedToken` | src/cmd/nft.cmd.ts:55-58 | after a save that dies anywhere and the cleanup, a token has the row of its new owner if its document was saved, and else the row it had; minted ones are gone |
| `NftRecovery.TokenScan` | src/types/nftCache.ts:113-155 | a second scan skips a token whose row is ahead until the event that its row's owner sends, and from there on has the chain's owner |
| `NftRecovery.AttemptKeepsRecoverable` | src/cmd/nft.cmd.ts:73-110 | after any process that dies in any part of its save, every token's row is that of some moment the scans have reached |
| `NftRecovery.TokensRecover` | src/cmd/nft.cmd.ts:55-110 | from a table at rest, after any number of processes that die in any part of their save, the first complete window stores every token with the owner the chain gives it |
| `NftRecovery.RestartedHolding` | src/cmd/nft.cmd.ts:55-58 | after a save that dies anywhere and the cleanup, a holder's amount is the one at the head exactly if its record was not saved, was deleted again because it was minted after the head, or was saved unchanged |
| `NftRecovery.AmountsRecoverIff` | src/cmd/nft.cmd.ts:55-110 | where both scans agree with the plain ledger, a holder ends with the chain's amount exactly under that condition |
| `NftRecovery.CreditedTwice` | src/types/nftCache.ts:249 | an instance: a recipient's record copied from an old one survives the cleanup and is credited again |
| `AccountCache.AccountCache.SetDefault` | src/types/accountCache.ts:93-106 | the cached account, else the stored one, else a new one that is stored at once |
| `AccountCache.AccountCache.FixAccount` | src/types/accountCache.ts:22-62 | afterwards the account has all four balances of the chain, its last update changes only if they differed, and no other account changes |
| `AccountCache.AccountCache.Minus` | src/types/accountCache.ts:64-91 | the method on the cache is the operation on values, guard and repair included |
| `AccountCache.AccountCache.Plus` | src/types/accountCache.ts:108-134 | the method on the cache is the operation on values, guard and repair included; the zero address is credited too |
| `AccountCache.AccountCache.Bound` | src/types/accountCache.ts:136-157 | the method on the cache is the operation on values: both balances move, and only the MTRG balance is checked |
| `AccountCache.AccountCache.Unbound` | src/types/accountCache.ts:193-214 | the method on the cache is the operation on values: both balances move, and only the bounded MTRG is checked |
| `AccountCache.AccountCache.SaveToDB` | src/types/accountCache.ts:216-226 | every cached account is stored and the cache is empty |
| `AccountCache.ProcessTx` | src/cmd/pos.cmd.ts:1277-1320 | the movements of a transaction that is not reverted, its staking events and its fee |
| `AccountCache.ProcessBlock` | src/cmd/pos.cmd.ts:1878-1899 | all transactions, then the reward of those with an origin to the beneficiary |
| `AccountBalances.MinusExact` | src/types/accountCache.ts:64-91 | without a repair a debit takes the amount from the sum of all accounts, and nothing for the zero address |
| `AccountBalances.PlusExact` | src/types/accountCache.ts:108-134 | without a repair a credit adds the amount to it, also for the zero address |
| `AccountBalances.BoundKeepsWealth` | src/types/accountCache.ts:136-157 | without a repair bounding leaves the sum of balances and bounded balances as it was |
| `AccountBalances.UnboundKeepsWealth` | src/types/accountCache.ts:193-214 | without a repair unbounding leaves the sum of balances and bounded balances as it was |
| `AccountBalances.MovesConserve` | src/cmd/pos.cmd.ts:1052-1064 | transfers and system-contract events change the sum by what the zero address sent |
| `AccountBalances.BlockConserves` | src/cmd/pos.cmd.ts:1878-1899 | over a block without a repair the sum of balances and bounded balances changes by what the zero address sent, plus the reward paid, minus the fees charged |
| `AccountBalances.SaveKeepsWealth` | src/script/calc-totalAddSub.ts:64-70 | a save keeps the sum |
| `AccountBalances.WealthConserved` | src/cmd/pos.cmd.ts:1878-1899 | over any number of blocks and saves without a repair the sum of all accounts, the zero address included, changes by what the zero address sent, plus rewards, minus fees |
| `Circulation.ZeroKeepsBurns` | src/types/accountCache.ts:108-134 | over any such run the zero address gains exactly what is sent to it and the rewards paid to it |
| `Circulation.CirculationConserved` | src/script/calc-totalAddSub.ts:10-24 | over any such run the coins outside the zero address change by mints minus burns, and for MTR by the rewards paid to others minus the fees |
| `Circulation.TotalsApart` | src/script/calc-totalAddSub.ts:50-73 | the sum of all accounts exceeds the calculated total by the burns and, for MTR, by rewards minus fees; the MTRG totals agree exactly if nothing was burnt |
| `AccountBalances.BlockKeepsMtrg` | src/types/accountCache.ts:136-157 | with a chain that reports no negative MTRG, a block leaves no account with negative MTRG, free or bounded, repairs or not |
| `AccountBalances.MtrgNeverNegative` | src/types/accountCache.ts:64-157 | over any number of blocks and saves no account ever holds negative MTRG, free or bounded, in the cache or in the table, repairs or not |
| `AccountBalances.BoundMtrNegativeIff` | src/types/accountCache.ts:140-143 | bounding leaves a negative MTR balance exactly when more is bounded than there is, and unbounding likewise |
| `AccountReplay.BlockIsReplay` | src/cmd/pos.cmd.ts:1878-1899 | over a block each of the four balances of every address is that of the address's own changes, played one after another with the repairs they need: transfers, staking events, fees, and the reward of the configured collector or else of the beneficiary; an account with a change is dated by the block, no other is touched, and there is a repair exactly if some change fails its check |
| `AccountReplay.BlockLaw` | src/cmd/pos.cmd.ts:1277-1320 | the account law: over a block without a repair each of the four balances of every address changes by the sum of its changes |
| `AccountReplay.RunLaw` | src/cmd/pos.cmd.ts:1878-1899 | the same over any number of blocks and saves |
| `AccountRows.BlockStoresRows` | src/types/accountCache.ts:93-106 | before any save a block leaves a row for exactly the accounts stored before and those it changes, the old ones as they were and the new ones with zero balances |
| `TokenBalances.MergeRoundTrip` | src/types/tokenBalanceCache.ts:35-65 | receiving a list of NFTs and sending the same list away restores the holdings, with repeated and zero entries |
| `TokenBalances.SavedRowIff` | src/types/tokenBalanceCache.ts:195-206 | a row that was touched exists after a save exactly when it has a balance or holds an NFT |
| `TokenBalances.StaleNftsDoNotMatter` | src/types/tokenBalanceCache.ts:241-243 | whatever holdings clean leaves behind, every later run of transfers, NFT movements and saves caches and stores the same rows |
| `TokenBalances.MoveNFTIgnoresStale` | src/types/tokenBalanceCache.ts:154-183 | a movement of NFTs acts the same on two caches that differ only in holdings left behind by clean |
| `TokenNfts.ImportKeepsNfts` | src/cmd/pos.cmd.ts:1108-1109 | importing transfers, deposits and withdrawals, with repairs and saves anywhere, keeps every holder's NFT holdings |
| `TokenNfts.MoveExact` | src/types/tokenBalanceCache.ts:154-183 | receiving NFTs adds the sums of the list to the holder's amounts, sending takes them away, from nothing nothing, and no amount ends below zero; no other holding and no balance changes |
| `TokenNfts.HoldingsArePlayed` | src/types/tokenBalanceCache.ts:154-206 | over any run of events, NFT movements and saves each holder's amount of each token id is that of its own movements, played one after another |
| `TokenBalances.MinusExact` | src/types/tokenBalanceCache.ts:120-135 | without a repair a debit takes the amount from the token's supply, and nothing for the zero address |
| `TokenBalances.PlusExact` | src/types/tokenBalanceCache.ts:137-152 | without a repair a credit adds the amount to the token's supply, and nothing for the zero address |
| `TokenBalances.SaveKeepsSupply` | src/types/tokenBalanceCache.ts:185-206 | deleting empty rows takes nothing from any supply |
| `TokenBalances.ApplyExact` | src/cmd/pos.cmd.ts:1065-1069 | an event changes the supply by what it mints or burns, wrapped-coin deposits and withdrawals included |
| `TokenBalances.SupplyConserved` | src/cmd/pos.cmd.ts:1231-1273 | over any run without a repair, saved at any time, the sum of a token's balances changes by mints minus burns |
| `TokenBalanceCache.MergeNFTBalances` | src/types/tokenBalanceCache.ts:35-65 | the three loops list each token once, with the merged positive amounts |
| `TokenBalanceCache.TokenBalanceCache.SetDefault` | src/types/tokenBalanceCache.ts:103-118 | the cached row, else the stored one, else a new stored one, with the holdings kept beside it |
| `TokenBalanceCache.TokenBalanceCache.FixTokenBalance` | src/types/tokenBalanceCache.ts:87-101 | afterwards the balance is the chain's, the last update changes only if it differed, and the holdings and all other rows are untouched |
| `TokenBalanceCache.TokenBalanceCache.Minus` | src/types/tokenBalanceCache.ts:120-135 | the method on the cache is the operation on values, guard and repair included |
| `TokenBalanceCache.TokenBalanceCache.Plus` | src/types/tokenBalanceCache.ts:137-152 | the method on the cache is the operation on values, guard and repair included; the zero address is never credited |
| `TokenBalanceCache.TokenBalanceCache.MoveNFT` | src/types/tokenBalanceCache.ts:154-183 | plusNFT and minusNFT on the cache merge the changes into the holdings beside the row, as on values |
| `TokenBalanceCache.TokenBalanceCache.SaveToDB` | src/types/tokenBalanceCache.ts:185-206 | every cached row is stored, or deleted when it is empty, and the rows leave the cache |
| `TokenBalanceCache.TokenBalanceCache.Handle` | src/cmd/pos.cmd.ts:1065-1069 | one transfer, deposit, withdrawal or save on the cache is that event on values |
| `TokenRecovery.TokenBalanceTable.CleanUp` | src/cmd/pos.cmd.ts:338-345 | exactly the rows updated after the head and the negative ones get the chain's balance at the head, dated by it; a row that has it already is not saved, holdings are untouched, and no row appears or goes |
| `TokenRecovery.WindowStaysInWindow` | src/types/tokenBalanceCache.ts:103-152 | within a window every row not updated after the head is right, and every cached row is stored |
| `TokenRecovery.RecoveredIff` | src/cmd/pos.cmd.ts:280-298 | after any window, any part of its save and the cleanup, a holder's balance is the chain's at the head if and only if the dying save has not deleted the row of a holder with a balance there |
| `TokenRecovery.NftsStay` | src/cmd/pos.cmd.ts:280-298 | holdings that the dying save has written stay written |
| `TokenRecovery.CleanUpAgain` | src/cmd/pos.cmd.ts:338-345 | a cleanup that dies and is done again ends as one that did not |
| `TokenRecovery.DeletedRowIsLost` | src/types/tokenBalanceCache.ts:199-200 | a holder who sends everything within the window: the dying save deletes the row, and the cleanup does not bring it back |
| `TokenReimport.NftsComeThrough` | src/cmd/pos.cmd.ts:280-298 | through a window, any part of its save, the cleanup and the second import every holder keeps its NFT holdings |
| `TokenReimport.ImportIsReplay` | src/cmd/pos.cmd.ts:1065-1069 | importing a window plays the changes of every holder on its own, with the repairs they cause |
| `TokenReimport.ReplayIsOff` | src/types/tokenBalanceCache.ts:127-132 | a balance that starts wrong stays off by the same amount until it turns negative; then it is off by what its block has still to add |
| `TokenReimport.ReimportedIff` | src/cmd/pos.cmd.ts:338-345 | after a window, any part of its save, the cleanup and the second import, a holder has the chain's balance exactly if its row was not lost or a repair came upon it in a block with no more to add |
| `TokenReimport.NeverBelowStaysLost` | src/types/tokenBalanceCache.ts:127-132 | a lost holder that never falls below what it had at the head ends short of exactly that |
| `TokenReimport.HealedIff` | src/types/tokenBalanceCache.ts:127-132 | with at most one change per block, a lost holder is healed exactly if it ever falls below what it had at the head |
| `BlockCache.Pos.FromCache` | src/utils/pos-rest.ts:336-356 | looks the block up by number, then by id, in the form asked for, and never for the best block; with a cache coherent with a chain, what is found is the node's answer exactly for the revisions on that chain |
| `BlockCache.Pos.ToCache` | src/utils/pos-rest.ts:360-375 | the method writes exactly the entries of a fetched block, by number and by id, an expanded one in its regular form too, and nothing for the best block or an absent one |
| `BlockCache.StoreWrites` | src/utils/pos-rest.ts:360-375 | a fetched block is cached by number and by id, an expanded one also in its regular form, with one id for each transaction in their order; no other entry changes |
| `BlockCache.StoredIsFound` | src/utils/pos-rest.ts:336-375 | a stored block is found again by number and by id, by id also when the entry of its number has been evicted |
| `BlockCache.AnswersAreUnique` | src/utils/pos-rest.ts:326-384 | number, id, and one id for each transaction in order leave the node one answer to a revision |
| `BlockCache.HitIsFetchIff` | src/utils/pos-rest.ts:352-356 | a hit is what the node would answer exactly when the revision is on the chain |
| `BlockCache.StoreKeepsCoherent` | src/utils/pos-rest.ts:358-375 | an answer fetched earlier, on a shorter chain, may be stored at any later time |
| `BlockCache.StepKeepsInv` | src/utils/pos-rest.ts:326-384 | lookups, pending fetches, answers, evictions and growth of the chain in any order keep the cache coherent |
| `BlockCache.EveryReturnIsAFetch` | src/utils/pos-rest.ts:326-384 | under any interleaving getBlock returns what the node would have answered, for every revision that is not a foreign id |
| `BlockCalls.CallReturns` | src/utils/pos-rest.ts:326-384 | from any state of any run, whatever is cached and pending, a call of getBlock has steps of its own to its return; it returns what the node answers now, which is then found in the cache, a hit changes nothing, and no other call is touched |
| `BlockCalls.PendingReturns` | src/utils/pos-rest.ts:326-384 | so does a call that is waiting for the node or has its answer already |
| `BlockCache.FormsAgree` | src/utils/pos-rest.ts:361-370 | a block cached in both forms: the regular one has the number, the id and, in order, the transaction ids of the expanded one |
| `BlockCache.ForeignIdHits` | src/utils/utils.ts:10-16 | an id with the number of a cached block, but not its own, is answered from the cache |
| `Decimals.DecimalInjective` | src/cmd/pos.cmd.ts:1799 | different indexes have different decimal strings |
| `InternalTxs.SuffixInjective` | src/cmd/pos.cmd.ts:1766-1800 | different paths have different suffixes |
| `InternalTxs.NameInjective` | src/cmd/pos.cmd.ts:1775 | a name determines the type, up to case, and the path |
| `InternalTxs.NodesDiffer` | src/cmd/pos.cmd.ts:1797-1802 | no two nodes of a trace have the same path |
| `InternalTxs.RowsDiffer` | src/model/internalTx.ts:63 | recorded nodes with different paths have different names, which the unique index asks for |
| `InternalTxs.NodesAreLedTo` | src/cmd/pos.cmd.ts:1797-1802 | the nodes visited are exactly those that a list of child indexes leads to, under the path of these indexes |
| `InternalTxs.Extract` | src/cmd/pos.cmd.ts:1764-1804 | the loop ends and visits every node of the trace exactly once; every call and creation, and no other node, has its row, named by its type in lower case and the child indexes that lead to it, with its parties and value; all names are different |
| `TxDigests.CollectIsExact` | src/cmd/pos.cmd.ts:1381-1425 | one row for each pair of sender and recipient of a qualifying transfer, with the pair's MTR and MTRG totals and each contributing clause once |
| `TxDigests.TotalsPreserved` | src/cmd/pos.cmd.ts:1387-1416 | all rows per pair together hold the MTR and the MTRG of all qualifying transfers |
| `TxDigests.DigestsAre` | src/cmd/pos.cmd.ts:1327-1437 | one row per clause, with the clause's parties and its value as MTR, MTRG or neither; then, for transactions of the zero address that are not reverted only, one row for exactly the pairs that a script-engine clause makes a transfer for, with the sums of both tokens and each such clause once |
| `TxDigests.IndexAcceptsIff` | src/model/txDigest.ts:58 | the unique index accepts a transaction's digests exactly when no script-engine clause of a system transaction makes a transfer from the origin to the clause's own target |
| `TxDigests.DirectDigests` | src/cmd/pos.cmd.ts:1338-1375 | one row for every clause; the test for a repeated id never drops one |
| `TxDigests.CollectOutput` | src/cmd/pos.cmd.ts:1386-1423 | folds the transfers of one output into the rows per pair, adding amounts to an existing row and the clause only if it is not listed |
| `TxDigests.AppendNew` | src/cmd/pos.cmd.ts:1427-1434 | every row per pair is appended; the test for a repeated id never drops one |
| `TxDigests.PosCMD.UpdateTxDigests` | src/cmd/pos.cmd.ts:1327-1437 | the cache grows by the rows per clause followed by the rows per pair |
| `EpochStats.CalcStats` | src/api/controllers/epoch.controller.ts:203-243 | every row names the first block not matched before, with its status and interval, and the list ends early exactly where a step raises an exception |
| `EpochStats.RowOfSeat` | src/api/controllers/epoch.controller.ts:214-238 | the row of a seat's turn in any cycle names the first block not reported before, and is a success, with the time since the block before, exactly if the member on that seat proposed it |
| `EpochStats.EndOfReport` | src/api/controllers/epoch.controller.ts:215-241 | a report that ends early does so at a seat without a member, with no block left, or at a first block whose interval has no start |
| `EpochStats.TurnOfSeat` | src/api/controllers/epoch.controller.ts:217 | every seat has one turn in each cycle through the committee |
| `EpochStats.SuccessesAreAPrefix` | src/api/controllers/epoch.controller.ts:219-228 | the successful rows name a prefix of the blocks, in order |
| `EpochStats.IntervalsTelescope` | src/api/controllers/epoch.controller.ts:221-228 | the intervals add up to the time from the last KBlock to the last matched block |
| `EpochStats.GreedyIsLongest` | src/api/controllers/epoch.controller.ts:214-238 | no assignment of blocks to increasing rounds with the right proposer matches a longer prefix, and none is anywhere earlier than the greedy one |
| `EpochStats.GreedyAssigns` | src/api/controllers/epoch.controller.ts:214-228 | the greedy rounds are such an assignment |
| `EpochStats.ReportIsLongest` | src/api/controllers/epoch.controller.ts:203-243 | with a complete committee the statistics have as many successes as any assignment up to the last round, and stop early only when all blocks are matched |
| `EpochStats.ScheduledBlocksAreAllFound` | src/api/controllers/epoch.controller.ts:203-243 | if the epoch followed the schedule at all, every block is reported as a success |
| `EpochStats.AllRoundsReportedIff` | src/api/controllers/epoch.controller.ts:215-241 | every round has a row exactly when a block is left for the last one |
| `EpochStats.GreedyIsTrueIff` | src/api/controllers/epoch.controller.ts:214-238 | an assignment of as many blocks is the greedy one exactly if no proposer let an earlier turn of its own pass |
| `EpochStats.ReportIsTrueIff` | src/api/controllers/epoch.controller.ts:203-243 | with a complete committee the rounds reported as successes are the true ones exactly if no proposer had let an earlier turn of its own pass since the block before |
| `EpochStats.TheGuessCanBeWrong` | src/api/controllers/epoch.controller.ts:219-228 | an instance: a member that times out and then proposes is reported as a success in the wrong round |
| `SortKeys.SameLengthOrder` | src/repo/tokenBalance.repo.ts:158 | among digit strings of one length, string order is numeric order |
| `SortKeys.LengthThenStringIsNumeric` | src/repo/tokenBalance.repo.ts:157-158 | on canonical decimals, length and then string is the numeric order |
| `SortKeys.StringAloneIsNotNumeric` | src/repo/tokenBalance.repo.ts:157-158 | by the string alone 10 would rank below 9 |
| `HolderPages.PagesRankHolders` | src/repo/tokenBalance.repo.ts:152-163 | no balance on a later page is larger than one on an earlier page, even when every request sorts anew |
| `HolderPages.PagesCover` | src/repo/tokenBalance.repo.ts:159-160 | every row of one sorted listing is on the page of its place |
| `HolderPages.PageHas` | src/repo/tokenBalance.repo.ts:159-160 | skip and limit return exactly the rows whose places are on that page |
| `HolderPages.SameRank` | src/repo/tokenBalance.repo.ts:158 | two sortings of the same rows have the same balance in every place |
| `HolderPages.OneSortingIff` | src/repo/tokenBalance.repo.ts:155-158 | there is only one way to sort exactly if no two holders have the same balance |
| `HolderPages.PagesFitIff` | src/repo/tokenBalance.repo.ts:155-161 | any two requests have the same holders on every page exactly if holders with the same balance are on one page |
| `HolderPages.TieAcrossPages` | src/repo/tokenBalance.repo.ts:155-161 | an instance: with two equal holders on two pages, one sorting shows on the second page whom the other showed on the first |
| `HolderPages.PagesOfTokensRankedIff` | src/repo/tokenBalance.repo.ts:208-221 | pages cut before they are sorted rank across pages exactly if the stored order does between pages |
| `HolderPages.SmallBalanceFirst` | src/repo/tokenBalance.repo.ts:208-221 | an instance: a small balance stored first is on the first page, before larger ones |
| `SortKeys.RankingIsByWorth` | src/repo/tokenBalance.repo.ts:219-220 | on positive balances of different tokens the keys order by balance / 10^decimals, and equal worths by decimals |
| `Ownership.NftCMD.ScanEIP173InRange` | src/cmd/nft.cmd.ts:325-348 | the loop over the events is the fold of `ScanOne` over the contract table |
| `Ownership.ScanReplays` | src/cmd/nft.cmd.ts:338-346 | contracts are replayed independently: each follows its own transfers only |
| `Ownership.ReplayEndsAtLastIff` | src/cmd/nft.cmd.ts:339-342 | a chained sequence ends at its last new owner exactly when it starts from an owner on the chain or from none, and changes nothing otherwise |
| `Ownership.RescanIsIdempotent` | src/cmd/nft.cmd.ts:325-348 | scanning a chained window twice is scanning it once, from any owner |
| `Ownership.RescanIff` | src/cmd/nft.cmd.ts:325-348 | for any window, chained or not, a second scan changes nothing exactly if the final owner is left by no transfer of it, or led back to by those after its first departure |
| `Ownership.RescanTableIff` | src/cmd/nft.cmd.ts:325-348 | the whole contract table may be scanned again exactly if that holds of every contract |
| `Ownership.BrokenChainIsNotIdempotent` | src/cmd/nft.cmd.ts:339-342 | an instance: two transfers that do not follow each other, where a second scan moves the owner again |
| `Ownership.WindowForgetsDeaths` | src/cmd/nft.cmd.ts:88-110 | a window whose scans die any number of times, after any events, ends as one undisturbed scan |
| `Ownership.RunReplaysHistory` | src/cmd/nft.cmd.ts:73-120 | however the history is cut into windows, and wherever scans die, every owner is that of one replay of the whole history |
| `Ownership.RunEndsAtLastOwner` | src/cmd/nft.cmd.ts:73-120 | over such a run a contract ends with its last new owner exactly when its first owner was on the chain or unknown |

## Left out

What is not modelled:

- MongoDB, HTTP, S3, Slack, web3 and logging: tables are maps and sets, the node is a function or a fixed chain, sleeps are dropped.
- ABI and script-engine decoding and hashing: decoded events are inputs, and hashes are injective.
- NFT metadata, contract verification and the probing of contracts.
- A null block, which both importers skip: the node is taken to answer for every height up to the best.
- The retry within the PoS process, which keeps the caches after an error (src/cmd/pos.cmd.ts:447-460): the crash theorems are about processes that are started again.
- Rows that the cleanup does not restore: withdrawals, redeployed contracts, the transaction metric, and the last block of committees.
- The contract and committee tables of the importer, whose handling depends on deployment status.
- The contract rows that genesis processing creates beside the accounts, and the cleanup of the reviewer's subclasses, which belongs to each of them.
- `AccountCache.withdraw`, whose only call is commented out (src/cmd/pos.cmd.ts:939).
- The counters `updateCounts` writes to contracts after a save.
- The limit of 2^53 on NFT amounts, which the code keeps as plain numbers; here they are unbounded.
- Letter case of addresses: addresses are compared for equality only.
- What a reader of several pages sees when balances change between the requests.
- The order of the transfers within a block in the ownership query, which sorts by block number only; the events are taken in the order the query returns them.
- The retry within the NFT import, which keeps the caches after an error, and its first window, which has no head and so no cleanup.
- Movements of NFTs in the token balances outside the importer, where the calls are commented out (src/cmd/pos.cmd.ts:1108-1109): integrity scripts make them through an auditor of their own (src/types/tokenBalanceCache.ts:260-290).

Contracts stated for less than everything:

- PosAccounts.AccountsRecover: the tracked changes of a block are taken to be the chain's, and no balance is repaired in the middle of a block, because a repair reads balances the model has no intermediate state for.
- PosTables.NoDuplicateKeys: rows are told apart by an identity of their own; whether the index columns of a table do so is the subject of `InternalTxs.Extract` and `TxDigests.IndexAcceptsIff`.
- NftCache.Cache.SaveToDB: says what is stored when the unique index allows it (`SaveReady`); of a save that the index refuses it says nothing but that the maps are unchanged.
- NftLedger.RunAgrees: each event must meet the condition under which it agrees with the ledger, which reads the cache. `NftLedger.TransferAgreesIff` and `NftLedger.MintAgreesIff` show that these are exact; a transfer of a whole minted holding to somebody else is left to `NftLedger.MintedWholeTransferSavesIff`.
- NftLedger.WindowsDoNotMatter: the same conditions, for both ways of cutting the windows.
- BlockCache.EveryReturnIsAFetch: not for foreign ids, whose exact effect is `BlockCache.HitIsFetchIff`.
- AccountBalances.BlockConserves: for blocks without a repair; a repair takes whatever the chain reports.
- TokenBalances.SupplyConserved: likewise for runs without a repair.
- TokenReimport.ReimportedIff: for holders whose changes are the chain's and never overdraw it.
- TokenRecovery.RecoveredIff: the events of the window are ERC20 transfers, deposits and withdrawals, which are all that the importer applies; `TokenReimport.NftsComeThrough` says the same of the holdings.
- TokenRecovery.NftsStay: likewise, the importer moves no NFTs.
- NftRecovery.AmountsRecoverIff: both scans must agree with the plain ledger, each from its own table, under the conditions of `NftLedger.RunAgrees`.
- PosAccounts.NothingSavedYet: for chains with nothing allocated; with something allocated genesis processing stores accounts first.
- PosFirstImport.ImportToEnd: for rounds begun with the present best block, which are those that follow a restart on a chain that has not grown meanwhile.
- PowImport.PowCmd.Run: transactions are listed by one block only; without that, `PowImport.DeleteTxKeepsInvIff` gives the deletions that do harm.
- Ownership.RunReplaysHistory: a scan that is repeated starts at the same block and does not end earlier, as the importer's head does not go down.
- TokenBalanceCache.MergeNFTBalances: the order in which the entries are listed is not stated.
