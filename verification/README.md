# Handle indexer: verified model

A Dafny model of the logic by which the indexer follows the chain, keeps its tables, imports
snapshots, checks what providers send and repairs itself, with proofs that it does what it is for.
`dafny verify dfyconfig.toml` checks everything.

How the files fit together:

- `Ledger` is the chain's side: transactions, live outputs, who holds which name. Nothing in it comes
  from the indexer. `ChainHistory` adds where outputs come from over a whole chain.
- `HandleTables` is the indexer's side: the tables and the net effect of each repository operation on
  them, including what a batch knows while its reads are deferred. `HandleStore`, `HandleRepository`
  and `BlockScanner` are the program's own form: a store with a queue, methods that issue commands one
  by one, the block's pipelines. Each method is proved to have the net effect.
- `IndexAgreement`, `HolderCounts`, `TableInvariants` and `OutputIndexing` prove what those effects keep;
  `BlockIndexer` is a block as its list of atomic writes; `BlockFacts` and `BlockRefinement` prove that
  the tables are the ledger's after any chain, `BlockReplay` that stopping anywhere and starting over
  changes nothing, however the rows are listed, `CutChains` the same along a whole chain, `MintHistory`
  what MINT holds after it, `MintMembers` and `CanonicalJson` that minting data do not depend on key order
  (`PropertyOrder` is the order in which keys are written), `NetUtxo` that the scanner's net update is the
  Ogmios fold. `AnyInput` proves what is kept without any ledger rule, `ScannedEntries` follows the cursor and
  the scanned-block entries over stopped passes. `ChainExamples` has a chain on which the indexer stops and one
  with an upgrade from a legacy token, `IndexExamples` states for the index lemmas with a condition.
- `SnapshotFence` is the WATCH/MULTI/EXEC protocol as a step machine with any number of clients and
  key expiry as a step of the environment, with a run in `SnapshotFenceExamples`; `SnapshotImport` is the
  resumable import over crashes.
- `Cbor` is the payload scanner with the grammar it recognises (section 3 of RFC 8949, sequences as in
  section 2 of RFC 8742), `CborStrict` the difference between that grammar and the RFC's; `RepairWalk` and
  `ParentChains` are the repair walks; `DemeterStream`, `ScanCoverage` and `ProviderBatches` are stream
  assembly, block coverage and request batching; `ScanRefinement` joins coverage, replay and refinement.
  `AssetLabels` is the label-set encoding. `Wrappers`, `Sequences` and `Ordering` hold what several files use.

## What the model takes for granted

- Ledger rules (`Ledger.Valid`): inputs are live and distinct, output ids are never reused, one owner
  token per name, tokens neither appear nor vanish without mint or burn, a name keeps its token while it
  moves, and a name that is held is minted again only once its token is burned, which the minting transaction
  itself may do, as when a legacy token is upgraded. The owner tokens are the legacy form and CIP-67 label 222.
- Library functions whose source is elsewhere (rarity, characters, numeric modifiers, OG number, subhandle
  root, payment key, holder of an address, stake hash) are arbitrary functions, as fields of `Lib`.
- A batch is atomic at the server, as the worker sends it. Providers are arbitrary or honest-but-lossy
  functions as each result says. JSON is modelled as a token stream: quoting of one string is below it.
- In `SnapshotImport` attempts come one after the other. That attempts of concurrent importers reduce to such
  a sequence rests on `SnapshotFence.OwnersNeverInterleave` and is assumed, not proved.
- The contents fetched under a hash are that transaction's, up to the order of keys in its metadata.

## Where the code falls short of what one would expect

Each with its exact condition and a concrete case.

- A block whose surviving output holds a token of its own mint beside a name the block does not mint
  stops the indexer (`BlockFollows`, `ChainExamples.IndexerStops`).
- Burning by OG number leaves an OG entry behind when the number is above 1, and addresses without a
  payment key leave one in PAYMENT_KEY_HASH under the undefined key (`BurnLeavesNothing`,
  `IndexExamples.OgEntryStays`, `IndexExamples.PaymentKeyEntryStays`).
- The scanned-block entry is described as one entry per fully processed block (stores/redis/index.ts:499), but it
  is written after the cursor: a stop exactly between the two leaves a processed block without an entry, and
  no later block supplies it (`ScannedEntries.EntryIsMissing`, `EntriesOfHistory`, `NothingSuppliesTheEntry`,
  `ExampleWithoutEntry`).
- The canonical text is meant to stand for the value, but a member named `__proto__` is lost from it, at any
  depth: texts agree exactly when the values without such members do (`CanonicalMeansStrippedSame`,
  `TextKeepsPlainValuesOnly`, `ProtoIsLost`).
- The CBOR scanner is laxer than RFC 8949: chunks of an indefinite string may themselves be indefinite,
  indefinite maps may hold an odd number of items, and two-byte simple values below 32 pass. What it accepts is
  well-formed in the RFC's terms exactly when the one tree it encodes takes none of the three
  (`CborStrict.ScannedIsStrict`, `AcceptedIsStrict`, `LaxPayloads`).
- The release of a snapshot owner that has lost its fence still removes the scanner lease if that is the one its
  own claim set (`LostOwnerIsHarmless`, `SnapshotFenceExamples.LostReleaseRemovesItsLease`).

Two operations are right on a condition that the indexer always meets (`AnyInput.ReachedStatesAreSafe`):

- `save` never clears the old RARITY, CHARACTER, NUMERIC_MODIFIER or LENGTH bucket, so agreement rests on
  those four never changing (`SaveKeepsAgreement`, `IndexExamples.OldRarityStays`).
- Burning in a batch a name that is not in its holder's set can drop the holder's key while other handles
  remain (`BurnNeedsMembership`, `IndexExamples.OthersAreLost`).

## Model

| member | source | states |
|---|---|---|
| BlockRefinement.ChainFollows | lambdas/scanner.app.ts:1144-1203 | From genesis over any valid chain of blocks, whose rows may come in any order, repeated, and with any key order of metadata: every block goes through if and only if none mixes fresh and old names in a surviving output; and then the handle table holds exactly the names whose token is unspent, each at its one live output, every index agrees with it and the UTXO tables are the live handle outputs, up to key order, or to the letter where the metadata are |
| BlockRefinement.BlockFollows | lambdas/scanner.app.ts:1144-1203 | One block from any state that follows the ledger: success exactly when no surviving output mixes; success means the tables follow the ledger after the block and the cursor is the block. Covers move-then-burn, burn-then-remint, a name burned and minted by one transaction, and outputs spent inside the block |
| BlockRefinement.GoesThrough | repositories/handlesRepository.ts:1033-1049 | The minting data an output is indexed with (the block's own when it mints anything, else the stored sets) has every one of its names, for all survivors, exactly when no survivor holds a token of its own mint beside a name the block does not mint |
| BlockRefinement.OutputsKeepTables | repositories/handlesRepository.ts:636-642 | The surviving outputs, one batch after the other: all go through iff each name has minting data, and all indexes, holder sets, counts and stake buckets agree afterwards |
| BlockRefinement.HandlesFollowAfter | lambdas/scanner.app.ts:1186-1193 | Burns first and survivors after give the handle table of the ledger after the block: nothing burned and not reminted is left, nothing moved points at a spent output |
| BlockRefinement.UtxosFollow | lambdas/scanner.app.ts:1190-1194 | Survivors added, then all spent inputs removed, is the set of live outputs with handle assets, whatever order, repetition and key order the rows came in |
| BlockRefinement.SurvivorsAreLive | lambdas/scanner.app.ts:1190-1193 | What the scanner indexes are the block's outputs with handle assets that are live after it: every one of these is indexed, and everything indexed is one of them up to key order of metadata |
| BlockRefinement.MintedNames | repositories/handlesRepository.ts:609-633 | The minting data built from every output, spent or not, names exactly what the block mints |
| BlockRefinement.NamedPoints | repositories/handlesRepository.ts:1069-1099 | Each name of a surviving output ends with a handle at that output: its id, address, lovelace and slot |
| BlockRefinement.FollowingIsUnique | lambdas/scanner.app.ts:1144-1203 | Any two tables that follow one ledger have the same handles at the same outputs and holders, the same holder counts and the same UTXO tables up to key order |
| ChainExamples.IndexerStops | repositories/handlesRepository.ts:639 | Concrete two-block chain, both blocks valid: the first goes through and the second, whose one output holds a fresh token beside an older one, stops the indexer |
| ChainExamples.UpgradeGoesThrough | lambdas/scanner.e2e.test.ts:638-669 | Concrete valid chain whose second block burns a legacy token and mints the 222 token of the same name in one transaction: it goes through, the name is at the new output with the new token, and the old output is gone |
| OutputIndexing.OutputKeepsTables | repositories/handlesRepository.ts:574-581 | One output's batch goes through exactly when each of its names has minting data; then every table agrees, each handle is the record made from the output, and its type is nft_subhandle exactly for a name with a root |
| OutputIndexing.AssetsKeepTables | repositories/handlesRepository.ts:1008-1205 | The loop over an output's assets keeps the caller's maps equal to what the queue will leave, and holder sets, counts and stake buckets in agreement, although no set can be read meanwhile |
| OutputIndexing.RecordIsLatest | repositories/handlesRepository.ts:1056-1099 | Over any outputs of one name, arriving in any order of slots: the record is at the output with the latest slot, the last such to arrive; its type is nft_subhandle exactly for a name with a root, it is not personalized, and rarity, characters, length, modifiers and OG number are those of the name; it has one unit more than second mints (a mint of the known token at another output that is not older), and its creation date is the least of the first minting datum's and of the mints that came too late to move it |
| OutputIndexing.ArrivalOrder | repositories/handlesRepository.ts:1075-1099 | Where no two outputs share a slot, any order of arrival leaves the record at the same output, address and holder |
| OutputIndexing.MoveCounts | repositories/handlesRepository.ts:1491-1536 | Leaving the old holder through the caller's map or the pre-batch size: its set loses the name, its count is right, its map entry goes exactly with its key |
| OutputIndexing.StoredKeepsHolders | repositories/handlesRepository.ts:970-1006 | Joining the new holder, leaving the old one and saving leaves every holder's set and count those of the handles |
| TableInvariants.BurnsKeepTables | lambdas/scanner.app.ts:1169-1175 | A batch of burns of stored handles removes exactly those handles and leaves every index, holder set, count and stake bucket in agreement with the rest |
| HolderCounts.BurnsKeepCounts | repositories/handlesRepository.ts:1491-1536 | A batch that burns distinct names, each in its holder's set: every holder keeps exactly the other names and its count is their number, absent exactly when there are none, though set reads answer nothing and scard shows the size before the batch |
| HolderCounts.BurnNeedsMembership | repositories/handlesRepository.ts:1497-1528 | One burn in a batch leaves its holder right if and only if the name was in the holder's set or the set was empty |
| IndexExamples.OthersAreLost | repositories/handlesRepository.ts:1497-1528 | Concrete state: a holder of x alone, and a batched burn of a handle that names the holder without being in its set: x and the count are gone |
| HolderCounts.BurnNowKeepsCount | repositories/handlesRepository.ts:1497-1499 | Outside a batch the set is read after the removal and the count is right whether or not the name was in it |
| IndexAgreement.EditsKeepAgreement | repositories/handlesRepository.ts:919-968 | After any sequence of saves and removals, immediate or queued, cut into batches anywhere: a name is in the ADDRESS, HANDLE_TYPE, PERSONALIZED, RARITY, CHARACTER, LENGTH, NUMERIC_MODIFIER or SUBHANDLE bucket of a key exactly when its stored handle has that key, and its SLOT score is its updated slot |
| IndexAgreement.SaveKeepsAgreement | repositories/handlesRepository.ts:1207-1286 | Saving over the stored handle keeps that agreement if and only if rarity, characters, numeric modifiers and length are unchanged: save never clears the old bucket of those four |
| IndexExamples.OldRarityStays | repositories/handlesRepository.ts:1207-1286 | Concrete state: saving over a handle of another rarity leaves the name in the old bucket |
| IndexAgreement.RemoveKeepsAgreement | repositories/handlesRepository.ts:919-968 | Removing a stored handle, whole or one unit of it, in a batch keeps the agreement |
| IndexAgreement.RemoveNowKeepsAgreement | repositories/handlesRepository.ts:919-968 | The same outside a batch |
| IndexAgreement.BurnLeavesNothing | repositories/handlesRepository.ts:933-937 | A burn leaves the name behind in the OG or PAYMENT_KEY_HASH index exactly when the OG number is above 1 or the address has no payment key |
| IndexExamples.OgEntryStays | repositories/handlesRepository.ts:933-937 | Concrete run: OG number 2 saved into empty tables and burned leaves its OG entry |
| IndexExamples.PaymentKeyEntryStays | repositories/handlesRepository.ts:933-937 | Concrete run: the burn at an address without a payment key leaves the entry under the undefined key |
| AnyInput.HistoryAgrees | lambdas/scanner.app.ts:1144-1203 | From empty tables, over any history of passes cut anywhere, whatever the transactions are (no ledger rule assumed, slots not falling): every index, holder set, holder count and stake bucket agrees with the stored handles, and each stored handle has the type, rarity, characters, length, modifiers and OG number of its name |
| AnyInput.ReachedStatesAreSafe | repositories/handlesRepository.ts:1497-1528 | In every state so reached a stored name is in its holder's set and the record made from any later output keeps rarity, characters, numeric modifiers and length: the failures of BurnNeedsMembership and SaveKeepsAgreement are out of the indexer's reach |
| AnyInput.BurnsAgree | lambdas/scanner.app.ts:1169-1175 | A batch of burns of distinct stored handles, of any amounts, keeps that agreement |
| AnyInput.OutputAgrees | repositories/handlesRepository.ts:574-581 | One output, with any tokens, repeated or minted again, keeps it |
| HandleStore.Store.Flush | stores/redis/index.ts:63-93 | A pipeline is applied as one batch: the store becomes what the queued commands amount to, and the replies are those of each command at its place |
| HandleStore.Store.Begin | stores/redis/index.ts:64-71 | Opening a pipeline inside a pipeline raises and leaves the outer queue as it was |
| HandleStore.Store.Write | stores/redis/index.ts:716-723 | Queued inside a pipeline, done at once outside: either way the settled state changes by exactly this command |
| HandleStore.Store.Read | stores/redis/index.ts:716-723 | Inside a pipeline a read answers nothing and changes nothing; outside it answers from the store |
| HandleStore.Store.RemoveFromHolder | stores/redis/index.ts:444-456 | HOLDER removals are counted per holder while a pipeline is active, and not outside |
| HandleStore.ReadsAnswer | stores/redis/index.ts:76-88 | A batch of reads changes nothing and answers every read from one state, in order |
| HandleRepository.Repository.Save | repositories/handlesRepository.ts:1207-1286 | The save commands, immediate or queued, add up to the net effect the index lemmas are about |
| HandleRepository.SaveOrder | repositories/handlesRepository.ts:1226-1285 | In the order the commands are issued, no removal of save undoes one of its own additions |
| HandleRepository.Repository.RemoveHandle | repositories/handlesRepository.ts:919-968 | The burn commands add up to the batch form inside a pipeline and to the immediate form outside |
| HandleRepository.Repository.RemoveHandleFromHolder | repositories/handlesRepository.ts:1491-1536 | With a map, without one in a batch, and without one outside a batch: the commands add up to the holder leaving, with the count each of the three can know |
| HandleRepository.Repository.UpdateHolder | repositories/handlesRepository.ts:970-1006 | The holder commands and the map change together |
| HandleRepository.Repository.UpdateHandleIndexes | repositories/handlesRepository.ts:1008-1205 | The asset loop raises exactly when the value form does, and otherwise leaves its queue and its maps |
| BlockScanner.Scanner.BuildIndexInfo | repositories/handlesRepository.ts:526-572 | Two read pipelines build the maps of the output's stored handles, of its holder and of their holders |
| BlockScanner.Scanner.AddUTxOWithMintingData | repositories/handlesRepository.ts:574-581 | An output is stored and indexed as one batch; when an asset raises, the store is untouched |
| BlockScanner.Scanner.AddMintData | repositories/handlesRepository.ts:599-607 | Every datum of every name becomes a member with sorted keys, and nothing else changes |
| BlockScanner.Scanner.RemoveUTxOs | repositories/handlesRepository.ts:590-597 | Exactly the listed outputs leave UTXO and UTXO_SLOT |
| BlockScanner.Scanner.BurnAll | lambdas/scanner.app.ts:1173-1175 | The burn pipeline has the net effect of removing the handles one by one |
| BlockScanner.Scanner.ProcessScannerBlock | lambdas/scanner.app.ts:1144-1203 | The program's pipelines are exactly the writes of BlockIndexer; when an output raises, the store is left after some of them |
| BlockScanner.BuildUTxOsFromTxs | utils/helpers.ts:164-264 | Outputs with handle assets in transaction order, then stably those with a 222 token first |
| BlockScanner.CollectBurns | lambdas/scanner.app.ts:1154-1167 | Each burned name once, in order of first appearance |
| BlockScanner.OtherHolders | repositories/handlesRepository.ts:557-565 | Exactly the non-empty holders of the stored handles that the map lacks |
| BlockFacts.BuildUtxosAre | utils/helpers.ts:164-264 | The built list holds each handle output of the block exactly once |
| BlockFacts.BurnedNames | lambdas/scanner.app.ts:1154-1167 | A name is collected for burning exactly when a transaction of the block burns its token |
| HandleTables.FirstSlot | repositories/handlesRepository.ts:1027 | The first minting datum's slot is the least of them |
| BlockReplay.ReplayIsOneRun | lambdas/scanner.app.ts:1169-1202 | However often processing a block was cut short, and after whichever write, with any tips, and with the rows fetched anew for every pass, in any order, repeated, in any key order: one more whole pass succeeds and ends with the same handles, UTXO tables and minting data as a single run over its own rows, every index in agreement |
| BlockReplay.PassKeepsPartial | lambdas/scanner.app.ts:1169-1202 | Any part of a pass from a partly written state succeeds and leaves a partly written state; past the last output the tables are final |
| BlockReplay.EntriesAgain | repositories/handlesRepository.ts:1056-1099 | Indexing outputs again over entries that are already final leaves those entries, so a handle minted in the block is not taken for a double mint |
| BlockReplay.InterruptedIsPartial | lambdas/scanner.app.ts:1169-1202 | Every sequence of interrupted passes, each over a listing of its own, leaves each name as before, burned, or final |
| BlockReplay.AnyListing | utils/helpers.ts:9-12 | Any two listings of a block, in other orders, with rows repeated or keys reordered at any depth, go through or raise alike, and leave the same handles, counts, UTXO slots and minting data, and the same UTXO table up to key order |
| BlockReplay.MintsToo | utils/helpers.ts:9-12 | Adding the block's minting data from either of two such listings gives the same MINT table: a replayed datum is the same member |
| BlockReplay.PartialToo | lambdas/scanner.app.ts:1169-1202 | What is partly written with respect to one listing is partly written with respect to any other |
| ScannedEntries.EntryIsMissing | lambdas/scanner.app.ts:1196-1202 | A pass over a block without an entry, stopped after k of its n writes: the cursor is the block exactly from k = n-1 on, the entry is there exactly at k = n; so the processed block lacks its entry exactly when the pass stops between the two, and then only the entry is missing |
| ScannedEntries.EntriesOfHistory | lambdas/scanner.app.ts:1196-1202 | Over any history of passes cut anywhere: a block has an entry exactly when some pass over it ran to its end or it had one before, and the cursor is that of the last pass that got so far |
| ScannedEntries.NothingSuppliesTheEntry | lambdas/scanner.app.ts:1196-1202 | After such a stop no later block, however often cut short, supplies the missing entry |
| ScannedEntries.ExampleWithoutEntry | lambdas/scanner.app.ts:1196-1202 | Concrete block: the first of the example chain stopped before its last write has the cursor and no entry |
| MintMembers.MembersMeanSame | repositories/handlesRepository.ts:603 | Two data become one MINT member exactly when slot and transaction agree and the metadata differ in key order and __proto__ members only |
| MintMembers.MintsIgnoreKeyOrder | repositories/handlesRepository.ts:599-607 | The MINT table after a block is the same whatever key order the provider sends, at any depth |
| MintHistory.MintsOfHistory | repositories/handlesRepository.ts:599-633 | Over any history of passes cut anywhere, whatever the transactions are: MINT has for a name what it had, and the datum (slot, hash, metadata with sorted keys) of every transaction that put a minted token of that name into an output of a block whose pass got past its second write, and nothing else |
| MintHistory.MintsFollow | repositories/handlesRepository.ts:599-633 | Along a valid chain, where the last pass has moved the cursor: exactly the data of the transactions of the blocks passed that mint the name |
| NetUtxo.NetIsFold | services/ogmios/ogmios.service.ts:298-324 | On blocks with distinct outputs the scanner's net update equals the Ogmios transaction-by-transaction fold if and only if nothing the block creates is spent only before its creation |
| NetUtxo.EarlierIsEnough | services/ogmios/ogmios.service.ts:298-324 | It does whenever inputs name only outputs of earlier transactions |
| NetUtxo.NetIsLedger | lambdas/scanner.app.ts:1190-1194 | On a valid block both updates give the live outputs with handle assets |
| NetUtxo.TableIsCreatedNeverSpent | lambdas/scanner.app.ts:1190-1194 | Over any valid chain, cut into blocks anywhere, the UTXO table is every handle output created and never spent |
| NetUtxo.AnyOrder | lambdas/scanner.app.ts:1189-1194 | The order in which a provider lists a block's transactions does not matter to the net update |
| NetUtxo.UtxoIndex.ProcessBlock | services/ogmios/ogmios.service.ts:298-324 | The Ogmios loop computes the fold |
| NetUtxo.UtxoIndex.ApplyNet | lambdas/scanner.app.ts:1188-1194 | The scanner's loops compute the net update |
| Ledger.NetForm | lambdas/scanner.app.ts:1182-1187 | A valid block removes what it spends and adds what it creates and does not spend |
| Ledger.UntouchedIsUnburned | lambdas/scanner.app.ts:1182-1187 | An output that survives a valid block from before holds only names the block does not burn |
| Ledger.RemintIsBurned | lambdas/scanner.app.ts:1182-1187 | A held name that a block mints is burned in that block, before or by the same transaction |
| Ledger.NewIsMinted | lambdas/scanner.app.ts:1182-1187 | A name held after a block that was absent before, or burned in it, was minted in it |
| Ledger.BlockStaysSound | lambdas/scanner.app.ts:1182-1187 | Valid blocks keep at most one holder per name |
| CanonicalJson.CanonicalMeansSame | utils/helpers.ts:13-26 | Values that differ in the key order of objects only get the same canonical text; and no others do, where no key at any depth is __proto__ |
| CanonicalJson.CanonicalMeansStrippedSame | utils/helpers.ts:13-26 | For all values: the same canonical text exactly when they differ, at any depth, in key order and in members named __proto__ only |
| CanonicalJson.TextKeepsPlainValuesOnly | utils/helpers.ts:17-19 | Every value has the text of itself without such members, and is that value exactly when it has none: so the text stands for the value exactly when no key is __proto__ |
| CanonicalJson.ProtoIsLost | utils/helpers.ts:17-19 | Concrete values: an object whose only key is __proto__ and the empty object get the same text and are not the same |
| CanonicalJson.SortForgetsOrder | utils/helpers.ts:14-25 | Sorted forms agree exactly when the values, without their __proto__ members, agree as maps |
| CanonicalJson.WriteIsPrefixFree | utils/helpers.ts:25 | No written value is a proper prefix of another |
| PropertyOrder.SortedInOrder | utils/helpers.ts:13-27 | In the sorted form of an object the keys that are array indices come first, by number, and then the rest by code units, since the sorted keys are assigned to an ordinary object one by one |
| PropertyOrder.IndexMeans | utils/helpers.ts:18-20 | A key counts as an array index exactly when it is the decimal of a number up to 2^32 - 2 |
| SnapshotFence.CommitsOnlyAsOwner | workers/redisSync.worker.js:66-97 | In every run, over any interleaving and expiry, a fenced batch is applied only at an instant when the fence key is its owner and the scanner lease its recorded owner, with the repair gate open for a guarded writer, and leaves both keys with their holders and their expiry put off; every key then has the value of the last write that names it, none where that deletes it, and keys that no write names are as before |
| SnapshotFence.ClaimIsAtomic | workers/redisSync.worker.js:25-49 | A claim goes through only on the exact fence, lease, metrics and progress image it was prepared for, then holds both keys, and changes no other |
| SnapshotFence.OwnersNeverInterleave | workers/redisSync.worker.js:66-97 | Between two applied batches of one snapshot owner no batch of another is applied |
| SnapshotFence.LostOwnerIsHarmless | workers/redisSync.worker.js:167-171 | Once the fence has passed from an owner its batches are never applied again. Of its release the first compare-and-delete changes nothing; the second changes the state exactly when the fence brought its own scanner lease and the lease still has that fence's token, and then removes that key and nothing else |
| SnapshotFenceExamples.LostReleaseRemovesItsLease | workers/redisSync.worker.js:167-171 | Concrete run: claim with its own lease, four reads, EXEC, expiry of the fence, release: the owner is lost and the release removes the lease it had set |
| SnapshotFence.LostForever | workers/redisSync.worker.js:66-97 | An owner that lost the fence never has it again |
| SnapshotFence.GuardedWritesNeedOpenGate | workers/redisSync.worker.js:139-153 | A guarded repository write is applied only while gate and journal are absent; every key then has the value of the last write that names it, none where that deletes it, and keys that no write names are as before, the leases among them |
| SnapshotFence.UntouchedCallCommits | workers/redisSync.worker.js:66-97 | The converse over whole runs: a call whose expected values hold at its WATCH, and whose watched keys no step modifies or refreshes until its EXEC, agrees at every read, is never dropped, and has its batch applied: every key then has the value of the last write that names it, none where that deletes it, and keys that no write names are as before |
| SnapshotFence.InvHolds | workers/redisSync.worker.js:66-97 | Every reachable state keeps the protocol invariant: owners are claimed once, and reads that agreed still hold while their versions do |
| SnapshotFence.LostStaysLost | lambdas/scanner.app.ts:119-149 | No step, lease acquire, renew, release and expiry included, gives a lost owner its fence back |
| SnapshotFence.OnlyCommitsWrite | workers/redisSync.worker.js:66-97 | A call writes nothing but for a batch that commits; a read that does not agree, an EXEC whose watched keys have changed and a lost connection end it, and no step touches the call of another client |
| SnapshotFence.HoldersAfter | lambdas/scanner.app.ts:119-149 | Any step: a held fence or scanner lease stays with its holder, or becomes free by expiry or by a release that names the holder; a free one stays free or goes to the one that acquires or claims it |
| SnapshotFence.LeaseStaysUntilFreed | lambdas/scanner.app.ts:119-149 | Over any run: whoever held the scanner lease and does not any more was freed of it in between, by expiry or by a release with its own token |
| SnapshotFence.RenewsOwnLease | lambdas/scanner.app.ts:130-139 | A renewal puts the expiry off exactly when the lease is still the renewer's, and changes no value |
| SnapshotImport.ImportConverges | stores/redis/index.ts:199-303 | After any attempts at all, of other snapshots, refused, or crashed at any write, an attempt that runs to its end leaves the UTXO, UTXO_SLOT, MINT and scanned-block tables of its snapshot, each scanned block at the slot of its last entry, nothing older, and no progress note |
| SnapshotImport.AttemptKeeps | stores/redis/index.ts:199-303 | One attempt cut after any number of writes: a refused one writes nothing, every progress note left behind is true, a completed one leaves exactly the snapshot and its metrics |
| SnapshotImport.CompleteIsUnique | stores/redis/index.ts:199-303 | Two completed imports of one snapshot agree on the four tables, so every history ends like an uninterrupted import |
| SnapshotImport.RestRuns | stores/redis/index.ts:275-297 | From any true progress note the remaining chunks keep the note true at every cut and end complete |
| SnapshotImport.FreshRuns | stores/redis/index.ts:645-653 | A first attempt cut anywhere: while it clears there is nothing to resume from, afterwards nothing old is left |
| SnapshotImport.BlocksConverge | stores/redis/index.ts:297 | Writing all scanned-block chunks again over a partly written ledger gives the ledger written once, in which each block has the slot of its last entry |
| SnapshotImport.ChunksAreInOrder | stores/redis/index.ts:240-241 | The outputs go in by rising slot, those of one slot in the order of the snapshot, minting data and blocks as listed; a thousand at a time, all but the last chunk full |
| SnapshotImport.AttemptsStayHonest | stores/redis/index.ts:219-257 | Progress notes stay true over any sequence of attempts |
| SnapshotImport.AttemptsCanResume | stores/redis/index.ts:240-257 | However often the import of one well-shaped snapshot into a database without a progress note was cut short at any write, or lost its claim: an attempt that wins its claim is let in and completes |
| SnapshotImport.GenesisOnlyOnNothing | stores/redis/index.ts:232-234 | Without a snapshot the first state is set up if and only if the claim is won and the database holds nothing, and then only the metrics are written |
| SnapshotImport.Importer.TryPopulate | stores/redis/index.ts:199-303 | The control flow with its admission, clearing and chunk loops performs exactly the planned writes, up to the crash |
| SnapshotImport.Importer.ClearNamespace | stores/redis/index.ts:645-653 | The scan loop deletes page by page |
| Cbor.ScannerIsGrammar | utils/ipfs/requestIpfs.ts:46-153 | Scanning succeeds at an offset exactly when an item of the scanner's grammar is encoded there, within the depth and entry limits, and ends where its encoding ends |
| Cbor.RoundTrip | utils/ipfs/requestIpfs.ts:46-153 | For every tree within the limits, in every head width and definite or indefinite form, between any prefix and suffix, the scan stops exactly at the end of its encoding |
| Cbor.EncodingIsUnique | utils/ipfs/requestIpfs.ts:46-153 | The bytes at an offset encode at most one tree |
| Cbor.ScannedIsEncoding | utils/ipfs/requestIpfs.ts:46-153 | Whatever the scanner accepts is the encoding of a tree, which is produced |
| Cbor.OnlyConsumedBytesMatter | utils/ipfs/requestIpfs.ts:46-153 | A success depends only on the bytes consumed |
| Cbor.StrictPrefixFails | utils/ipfs/requestIpfs.ts:46-153 | Cutting the buffer anywhere inside an item makes the scan fail |
| Cbor.DepthLimitIsExact | utils/ipfs/requestIpfs.ts:46-49 | A tree is scanned at a depth exactly when depth and height together stay within 64 |
| Cbor.AcceptsIsSequences | utils/ipfs/requestIpfs.ts:155-170 | A payload is accepted exactly when it is a non-empty sequence of encoded items |
| Cbor.ScanCborItem | utils/ipfs/requestIpfs.ts:46-153 | The recursion and its loops compute the scan, always terminate and stay within the buffer |
| Cbor.ValidateCborPayload | utils/ipfs/requestIpfs.ts:155-170 | The loop terminates and accepts exactly those payloads |
| CborStrict.ScannedIsStrict | utils/ipfs/requestIpfs.ts:46-153 | Whatever is scanned is an item of section 3 of RFC 8949 exactly when the one tree its bytes encode has only definite chunks, even indefinite maps and two-byte simple values from 32 |
| CborStrict.AcceptedIsStrict | utils/ipfs/requestIpfs.ts:155-170 | An accepted payload is a sequence of such items exactly when the one sequence it encodes is |
| CborStrict.StrictIsAccepted | utils/ipfs/requestIpfs.ts:155-170 | No sequence of such items within the limits is refused |
| CborStrict.LaxPayloads | utils/ipfs/requestIpfs.ts:46-153 | Three concrete payloads, one for each liberty, that are accepted and are no such sequences |
| CborStrict.SequenceIsUnique | utils/ipfs/requestIpfs.ts:155-170 | A payload is a sequence of items in at most one way |
| Cbor.HeadIsRead | utils/ipfs/requestIpfs.ts:6-44 | Every head, in each of its widths, is read back with its major type and argument |
| Cbor.HeadWasWritten | utils/ipfs/requestIpfs.ts:6-44 | Every argument that reads is a head in one of those widths |
| Cbor.BytesRoundTrip | utils/ipfs/requestIpfs.ts:18-39 | Writing a number in a width and reading it big-endian gives the number |
| Cbor.ReadingIsWriting | utils/ipfs/requestIpfs.ts:18-39 | Reading bytes big-endian and writing the number back gives the bytes |
| RepairWalk.Walker.WalkBack | utils/koiosRepairReader.ts:90-125 | The walk ends; whatever it returns held the token in the ledger at the cursor, created by then and not spent by then, and the token was not minted since; with a provider that answers in full it returns whenever the token was not minted after the cursor |
| RepairWalk.Walker.WalkTargets | utils/koiosRepairReader.ts:90-125 | All targets over one file of transactions: the result names, target by target, the output that held the token at the cursor; with a provider that answers in full the whole read succeeds if and only if no target was minted after the cursor |
| RepairWalk.Walker.StepBack | utils/koiosRepairReader.ts:97-123 | A step goes to an input that carries the token, only from distinct inputs that all check out, and succeeds whenever the chain and the provider allow it |
| RepairWalk.Walker.FetchMissing | utils/koiosRepairReader.ts:104-110 | Missing parents are fetched fifty at a time in their order, only chain transactions are filed, and success means all are there |
| RepairWalk.Walker.OwnerInputs | utils/koiosRepairReader.ts:111-120 | The inputs that carry the token are collected exactly when every input checks out, and otherwise the first that does not refuses |
| RepairWalk.TokenComesIn | utils/koiosRepairReader.ts:101-120 | A valid transaction that outputs the token and does not name it in its mint field takes it from exactly one input |
| RepairWalk.ParentStands | utils/koiosRepairReader.ts:111-123 | Stepping to that input goes to an earlier transaction, and nothing at or before the cursor spends it |
| RepairWalk.Arrived | utils/koiosRepairReader.ts:92-125 | At or before the cursor the walk stands at the output that held the token then |
| RepairWalk.CoversAll | utils/koiosRepairReader.ts:108 | An answer with as many distinct requested rows as hashes has every one of them |
| ChainHistory.LiveMeansLive | utils/koiosRepairReader.ts:92-125 | In a valid chain an output is live at a point exactly when it was created before and not spent before |
| ChainHistory.InputHistory | utils/koiosRepairReader.ts:111-120 | Every input was created by an earlier transaction and is spent by no other |
| ParentChains.RepairCommonAncestor | utils/repairCommonAncestor.ts:7-54 | With a consistent reader a block is returned exactly when both windows can be read up to a common block, and it is the highest block common to both parent chains |
| ParentChains.FirstHitIsHighest | utils/repairCommonAncestor.ts:40-52 | The first block of the new chain found in the old window is the highest common one |
| ParentChains.SameWindow | utils/repairCommonAncestor.ts:29-52 | If the chains meet within both windows, the walk over the new chain reaches a block of the old window |
| ParentChains.NoWindow | utils/repairCommonAncestor.ts:32-39 | A walk that stops short of the depth and of genesis proves there is no readable window |
| ParentChains.AncestryReader.Load | utils/repairCommonAncestor.ts:20-28 | A block loads exactly when hash, slot and parent check out; whatever the reader does, one that loads has the slot and parent it had before |
| ParentChains.WalkOld | utils/repairCommonAncestor.ts:29-39 | The old walk collects exactly the window of the old tip, or there is none |
| ParentChains.WalkNew | utils/repairCommonAncestor.ts:40-53 | The new walk returns the first block of its chain in the old window, or there is none within the depth |
| ParentChains.AnchoredTip | utils/koiosRepairReader.ts:26-42 | The observed tip is accepted exactly when it descends from the cursor within the depth |
| ProviderBatches.GetKoiosBatches | lambdas/scanner.app.ts:197-232 | The batches are non-empty, join to the list, each with a request body and an item count within both limits or a single item, and no split with that rule has fewer |
| ProviderBatches.GreedyIsOptimal | lambdas/scanner.app.ts:197-232 | No order-preserving split has fewer batches than the greedy one |
| ProviderBatches.GreedyStaysAhead | lambdas/scanner.app.ts:197-232 | After any number of batches no other split has placed more items |
| ProviderBatches.FetchAnswers | lambdas/scanner.app.ts:337-379 | Under any pattern of failures retry-and-split terminates within its budget, and an answer is the in-order concatenation of leaf answers whose batches partition the hashes |
| ProviderBatches.FailsExactly | lambdas/scanner.app.ts:337-379 | The call fails if and only if one of its requests meets the deadline, a rejection not worth retrying, or the fourth rejection in a row of a batch of at most one hash, and then that request is its last; before, each rejected batch is asked for again until its fourth rejection and then by halves, and nothing else is asked for |
| ProviderBatches.PatienceSucceeds | lambdas/scanner.app.ts:355-378 | With a provider in time that rejects only for now, and does not reject four requests in a row for one batch of at most one hash, every call is answered |
| ProviderBatches.RequestBound | lambdas/scanner.app.ts:337-379 | At most 4(2n-1) requests for n hashes |
| AssetLabels.EnsureAllAdds | utils/assetLabelRegistry.ts:90-94 | Any sequence of ensureLabel calls succeeds on a canonical string, stays canonical and adds exactly those labels |
| AssetLabels.OnlyTheSetMatters | utils/assetLabelRegistry.ts:90-94 | and the resulting bytes depend only on the set of labels |
| AssetLabels.EnsureAdds | utils/assetLabelRegistry.ts:90-94 | ensureLabel adds one label, ensureNoLabel removes it, both stay canonical |
| AssetLabels.InsertThenRemove | utils/assetLabelRegistry.ts:63-81 | Insert keeps the strict order, and remove gives back the same bytes |
| AssetLabels.RemoveThenInsert | utils/assetLabelRegistry.ts:63-81 | Remove and then insert gives back the same bytes |
| AssetLabels.ApplyUndoes | utils/assetLabelRegistry.ts:101-105 | A delta succeeds exactly on an absent label for +1 and a present one for -1, and the opposite delta undoes it |
| AssetLabels.JoinOfChunks | utils/assetLabelRegistry.ts:42-48 | Joining the chunks of any string gives the string |
| AssetLabels.ChunksOfJoin | utils/assetLabelRegistry.ts:42-48 | Chunking a join of full-width labels gives the labels |
| AssetLabels.CanonicalIsUnique | utils/assetLabelRegistry.ts:63-71 | Two canonical strings with the same labels are equal |
| AssetLabels.EverySetHasAString | utils/assetLabelRegistry.ts:63-71 | Every label set has a canonical string |
| AssetLabels.InsertLabel | utils/assetLabelRegistry.ts:63-71 | Refused exactly for a label of the wrong width and, on a canonical string, for one already in it; otherwise the result is canonical and its label set is the old one with the label |
| AssetLabels.RemoveLabel | utils/assetLabelRegistry.ts:74-81 | Refused exactly for a label of the wrong width and, on a canonical string, for an absent one; otherwise the result is canonical and its label set is the old one without the label |
| AssetLabels.ChunksOf | utils/assetLabelRegistry.ts:42-48 | The slicing loop gives the chunks |
| DemeterStream.Assembler.Consume | services/demeter/utxorpc.service.ts:163-215 | The loop hands on exactly the committed blocks of the stream, in order, ends at the target tip exactly when the stream reaches it cleanly, and otherwise with the failure that BlocksAreRuns locates |
| DemeterStream.HeightsAreConsecutive | services/demeter/utxorpc.service.ts:188-203 | Handed-on heights rise by one and every slot is below the target tip |
| DemeterStream.BlocksAreRuns | services/demeter/utxorpc.service.ts:176-205 | Handed-on blocks are neighbouring whole runs of the stream: none twice, none before its successor is seen, none held back unless the handler refused the one before; the transactions of each are the conversions at a rising list of events of its run, exactly the successful applies whose hash no earlier apply of the run has; the stream ends at the tip, with the refusal, or with what is wrong with the event after the last run |
| DemeterStream.NothingPastTheFirstFault | services/demeter/utxorpc.service.ts:172-174 | After an undo or an unreadable reference nothing more is handed on |
| ScanCoverage.RunInvocations | lambdas/scanner.app.ts:1280-1443 | Whatever the providers drop and wherever invocations stop, inside a block included, the processed blocks are a gap-free prefix of the chain, each with all of its transactions, and each transaction once if no provider repeats one; every pass, finished or not, was over the block after the cursor with all of that block's transactions |
| ScanRefinement.ScannedTablesFollow | lambdas/scanner.app.ts:1280-1443 | Coverage, replay and refinement together: over any invocations, each pass fetching anew and stopping after any of its writes, everything goes through if no block reached mixes, no mixed block is ever passed, and whenever a pass has moved the cursor the tables are those of the ledger after exactly the processed blocks |
| ScanRefinement.PassesAreAlong | lambdas/scanner.app.ts:1406-1442 | The passes that the scanner makes are a history along the ledger's chain, with the cursor where the scanner has it: what was fetched for a block is a listing of its transactions |
| CutChains.HistoryFollows | lambdas/scanner.app.ts:1144-1203 | From empty tables, over any history of passes along a valid chain, each over the block after the cursor, over a listing of its own, and cut after any write: it goes through if no block reached mixes, no block passed mixes, and after a pass that set the cursor the tables follow the ledger after exactly the blocks passed |
| CutChains.PassStands | lambdas/scanner.app.ts:1169-1202 | One more pass from tables that follow the ledger or are in the middle of the next block: cut before the cursor it stays in the middle, and past it the tables follow the ledger after the block |
| CutChains.MixedRaises | repositories/handlesRepository.ts:1033-1049 | From any tables at all, a pass over a block that mixes raises before it sets the cursor |
| ScanCoverage.Scanner.Scan | lambdas/scanner.app.ts:1280-1443 | One invocation processes a prefix of its sorted listing, whole blocks only, and all of it when the providers help and time allows |
| ScanCoverage.Scanner.ScanChunk | lambdas/scanner.app.ts:1350-1443 | A chunk likewise |
| ScanCoverage.Scanner.ProcessChunk | lambdas/scanner.app.ts:1406-1442 | Blocks are processed in order up to the first that is not covered, which is the one the pause names |
| ScanCoverage.CoveredIsWhole | lambdas/scanner.app.ts:1408-1434 | With rows that may be dropped but not invented and a correct tx_count, a block that passes both coverage checks has all of its transactions |
| ScanCoverage.HelpCovers | lambdas/scanner.app.ts:1369-1393 | When the fallbacks answer, every block of the chunk passes the checks |
| ScanCoverage.SortIsChainOrder | lambdas/scanner.app.ts:1286 | Sorting by confirmations puts any arrangement of neighbouring blocks into chain order |
| ScanCoverage.FetchChunk | lambdas/scanner.app.ts:1354-1393 | What a chunk fetch returns only ever understates the truth, and covers the chunk when the fallbacks answer |
| ScanCoverage.FillMissing | lambdas/scanner.app.ts:1386-1393 | Missing transactions are fetched one by one, and none is invented |
| ScanCoverage.CountDistinctByBlock | lambdas/scanner.app.ts:1360-1368 | Distinct transactions per block |
| ScanCoverage.GroupByBlock | lambdas/scanner.app.ts:1398-1405 | Transactions by block, in order |
| ScanCoverage.DistinctTxs | lambdas/scanner.app.ts:1383 | Each listed hash once |

## Left out

- HTTP routes, controllers, view models, search, default-handle display, marketplace listings, script catalogue: request plumbing and single-branch checks.
- Network calls, timers, deadlines, compression, websocket and gRPC transport: providers are functions here.
- Rollback processing: its end state rests on provider answers and heuristics about drift.
- The Lua reader-gate and undo-log scripts and the undo images of fenced calls: their source is not part of this model. A claim's namespace scan for an empty store reads keys that are not watched, and its answer is not modelled.
- Reference tokens, virtual subhandles and registry tokens (labels 100, 000, 001 to 004) in the indexer, with datum decoding, personalization and IPFS content: the label strings alone are in `AssetLabels`.
- Output fields that no modelled decision reads (datum, script, block number), and the filtering of a transaction's metadata to the names of one output: minting data keep the transaction's metadata.
- Grouping of assets by policy id: one policy is modelled.
- Asset names that are not the UTF-8 bytes of a name: the program raises on a new one, and the model has names only.
- The root sets of HOLDER and SUBHANDLE: with several removals in one batch the code decides them on the size before the batch.
- TableInvariants.BurnsKeepTables: leaves out the id_hash form of the stake-hash bucket, because the code removes it by another hash than it adds it.
- HandleRepository.Repository.UpdateHolder: does not model the `default` flag of a handle, nor the call without the caller's maps.
- BlockRefinement.ChainFollows: says nothing of the OG and PAYMENT_KEY_HASH buckets, whose exact condition is BurnLeavesNothing, nor of hash fields that the store never deletes.
- SnapshotImport.ImportConverges: leaves out the handle indexes, because a resumed process starts with empty handle and holder maps.
- CanonicalJson.CanonicalMeansSame: works on tokens; quoting and escaping inside one string is below it.
- ScannedEntries.EntriesOfHistory: leaves out the trim to the 3000 most recent entries at the end of an invocation.
- The handle half of the Ogmios reader: its UTXO half is in `NetUtxo`.
- Snapshot contents are assumed to have passed validation; validation itself is a list of single checks.
- The repair reader's first answer (one unspent output per target, agreeing with its transaction) and the datum lookups: the walk starts from an output that meets those checks.
- String case folding beyond ASCII in label handling.
- Request limiter, scanner budget and pause counters: simple members beside the ones above.
