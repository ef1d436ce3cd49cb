# go-etherzero: a verified model of the pool, the chain and their neighbours

The project models the state machines of go-etherzero, a fork of go-ethereum, that keep several
redundant tables in step, and proves what every step and every run keeps. `dafny verify
dfyconfig.toml` checks all of it.

| files | what they model |
|---|---|
| `BinaryHeap`, `Sorting`, `Sequences`, `Sets`, `Options` | a binary heap over any order, insertion sort, and small helpers |
| `Transactions`, `TxSortedMap`, `TxList`, `TxPriced` | one account's transactions by nonce, and the price heap with lazy deletion |
| `PoolAccount`, `PoolSteps`, `PoolReset` | one account of the pool: what each operation makes of it, any course of them, and a reset |
| `PoolView`, `PoolFairness`, `PoolBooks`, `TxPool`, `PoolRuns` | the transaction pool: all tables together, the limits, what operations decide, the operations, and some runs |
| `Gas` | intrinsic gas, the gas pool, one message, a block |
| `Ancestry`, `Forks`, `HeaderChain`, `BlockChain`, `TrieGc`, `HashFn` | ancestors, forks, the canonical index, reorganisations, the lookup table, trie references, block hashes |
| `Feed` | one-to-many delivery on a shared array |
| `ChainIndexer` | sections processed while the chain moves |
| `Distributor` | requests handed to peers in order |
| `DerivationPath` | wallet paths as text |

How the source is read:

- A hash stands for what it was computed from. Pool transactions are their own hashes; blocks and
  chain transactions have a hash field, and storing a block asks that a stored block with the same
  hash is the same block.
- Database tables, caches in front of them and `ManagedState` are maps; a missing canonical entry
  reads as the zero hash, as in the source. Numbers are unbounded except where the source's width
  matters: gas (64 bits, with the overflow checks), path components (32 bits), the subtraction of
  one from a block number in `HashFn`.
- Coins, timing, peers' answers, map iteration order and the choices of `select` are parameters or
  arbitrary choices, so every result holds for all of them. Each region under a lock is one step.
- The pool keeps its lists as values. `TxList` is proved to compute the same functions
  (`Retained`, `Stranded`, `Lowest`, `RunEnd` and so on) on its map, heap and cache.
- The virtual machine is any function that gives back no more gas than it got. Power is charged, no
  miner is paid.

The invariant of the pool (`Consistent`, held by `Valid()`) asks nothing of the chain state, so it holds
also in the middle of a reset: every list is filed by sender and nonce, no transaction is in two places,
and the lookup table is exactly the union of all lists. An account is in order (`Sound`) if its pending
nonces are exactly the interval from its state nonce to its pending nonce, its queued nonces are at or above the
pending nonce, and every transaction fits balance, power and gas limit; it is without gaps (`Gapless`) if
this holds but for the payment and for a pending nonce fallen below the state nonce. `Settled()` says that no
account has its next transaction in the queue, and `Exactly()` that the price heap has one entry per live transaction
and counts its stale ones right. A `Ledger` is the price heap with two ghost counters that only record: how often a
transaction was put while it had an entry, and how many entries were lost to the count since the last rebuild.

Where the code differs from what it says or is expected to do:

- The comment on the queue limit speaks of dropping the oldest; the code drops from the accounts heard
  of most recently first, and that is what `NewestFirst` states; `NewcomerLoses` is a run (core/tx_pool.go:1065-1103).
- A transaction that comes back while its old entry is still in the price heap gets a second one, and if it is then
  dropped for its price, both go but only one was counted. `Valid()` holds a conservation law for this (`Tally`):
  entries and entries lost that way are as many as live and stale ones. `Put` says when a transaction is doubled, `Cap`
  and `Discard` when entries are lost, `Run` that the accounting is exact as long as nothing is doubled, and
  `CountedTwice` is a run of the pool that gets the count wrong; the heap still covers every live transaction, and
  `Cap`, `Underpriced` and `Discard` still choose rightly, but `Discard` then drops too few (core/tx_list.go:421-527).
- A reset adds the transactions to reinject under the new state before it demotes the old lists. If the pool's limits
  then evict a pending transaction that is already mined, the account's pending nonce is left below its state nonce:
  `Reset` says that this happens exactly then, `MinedDropped` is a run in which it does (core/tx_pool.go:415-438).
- Demotion looks for a gap only in front of a pending list. If an account's nonce goes down and only a part of what was
  taken back is let in again, the list keeps a gap in the middle: `Reset` says exactly when, `TornApart` is
  a run in which it does (core/tx_pool.go:1136-1143).
- A rejection for an insufficient price bump can come after cheap transactions have been dropped to
  make room (`RefusedYetDropped`), and a local transaction that replaces a pending one does not make its sender local
  (`LocalReplacement`, core/tx_pool.go:641-682); `Add` states both, the second where nothing is dropped.
- A checkpoint added to the indexer while a section is being processed is lost when that section is stored
  (`CheckpointUndone`, core/chain_indexer.go:345-350).
- `GetAncestor` takes the zero hash above the head for a canonical block (core/headerchain.go:341-344).
- Components from 2^31 on are accepted without the quote mark (accounts/hd.go:104).

## Model

| member | source | states |
|---|---|---|
| `BinaryHeap.Push` | core/tx_list.go:37-40 | pushing keeps the heap order and adds exactly the new element, for any strict weak order |
| `BinaryHeap.Pop` | core/tx_list.go:42-48 | popping returns an element that nothing in the heap is less than, keeps the heap order and removes exactly that element |
| `BinaryHeap.RemoveAt` | core/tx_list.go:152-169 | removal at any index keeps the heap order and removes exactly that element |
| `BinaryHeap.Init` | core/tx_list.go:113-122 | establishes the heap order on any permutation of the input |
| `BinaryHeap.RootIsLeast` | core/tx_list.go:87-94 | in every heap no element is less than the root |
| `SortedMap.TxSortedMap.Put` | core/tx_list.go:73-79 | refines map update; the heap still holds each key once and the stale cache is gone |
| `SortedMap.TxSortedMap.Forward` | core/tx_list.go:84-98 | removes exactly the nonces below the threshold and returns them in nonce order; a kept cache is still the sorted map |
| `SortedMap.TxSortedMap.Filter` | core/tx_list.go:102-123 | removes exactly the matching transactions, returns each of them once, and rebuilds the index if anything went |
| `SortedMap.TxSortedMap.Cap` | core/tx_list.go:127-148 | keeps exactly the lowest nonces, returns the others from the top down |
| `SortedMap.TxSortedMap.Remove` | core/tx_list.go:152-169 | reports whether the nonce was there and removes exactly it |
| `SortedMap.TxSortedMap.Ready` | core/tx_list.go:178-193 | returns the maximal consecutive run from the lowest nonce if that is not beyond the start, otherwise nothing, and removes exactly what it returns |
| `SortedMap.TxSortedMap.Len` | core/tx_list.go:196-198 | the size of the map is the length of its sorted listing |
| `SortedMap.TxSortedMap.Flatten` | core/tx_list.go:203-216 | the cached or newly sorted listing is the one nonce-ordered listing of the map |
| `SortedMap.SortedListing` | core/tx_list.go:203-216 | any sorted permutation of the map's values is that listing |
| `SortedMap.SortedIndex` | core/tx_list.go:131-141 | a sorted index is the nonce sequence of the sorted listing |
| `Transactions.FlatUnique` | core/tx_list.go:203-216 | a nonce-ordered listing of a map is unique |
| `AccountLists.TxList.Add` | core/tx_list.go:254-278 | inserts unless an older transaction o with the nonce is there and not both o.price < price and o.price * (100 + bump) <= 100 * price + 99; the caps bound every member |
| `AccountLists.TxList.Filter` | core/tx_list.go:296-321 | removes exactly the transactions beyond the limits and, in a strict list, everything behind the first of them, whether or not the short circuit is taken |
| `AccountLists.TxList.Remove` | core/tx_list.go:332-343 | removes the nonce and, in a strict list, everything above it, and returns the latter |
| `AccountLists.FilterPartitions` | core/tx_list.go:296-321 | removed, invalidated and kept transactions partition the list, and their sizes add up |
| `AccountLists.FilterKeepsPrefix` | core/tx_list.go:296-321 | filtering a strict gap-free list leaves a gap-free prefix, cut at the first transaction that does not fit |
| `AccountLists.RemovePartitions` | core/tx_list.go:332-343 | kept, invalidated and removed transactions partition the list; of a gap-free list the kept part is a gap-free prefix |
| `Pricing.TxPricedList.Put` | core/tx_list.go:421-423 | keeps the heap order and adds exactly one entry; the pool's conservation law counts it, and counts it as doubled exactly if the transaction has one |
| `Pricing.TxPricedList.Removed` | core/tx_list.go:428-443 | counts a stale entry while these are at most a quarter, and otherwise rebuilds the heap as exactly the live transactions, which makes good all entries lost; the conservation law goes on, no entry is new and single ones stay single |
| `Pricing.TxPricedList.Cap` | core/tx_list.go:447-474 | exactly the live remote transactions below the threshold go, with all their entries; what is lost to the count of stale entries is every entry beyond the first, so nothing if and only if each had one |
| `Pricing.TxPricedList.Underpriced` | core/tx_list.go:478-500 | agrees with a minimum scan over all live transactions; takes out stale entries only, and loses none to the count |
| `Pricing.TxPricedList.Discard` | core/tx_list.go:504-527 | the cheapest entries of live remote transactions go, at equal price those with higher nonces first, as many as asked for or all; how many of each transaction is bounded on both sides by the ranks of the entries before, exactly so where no other entry has its rank; something is lost to the count if and only if a transaction went twice, which is told from the state before |
| `Pricing.TallyExact` | core/tx_list.go:404-443 | by the conservation law (entries and lost entries are as many as live and stale ones) the count is right if and only if nothing was lost, and the accounting exact if and only if besides no transaction has two entries |
| `Pricing.EnteredFollows` | core/tx_list.go:421-423 | one more entry keeps the conservation law and, if the transaction had none, single entries |
| `Pricing.FollowsTwice` | core/tx_list.go:421-527 | whatever happens to the heap one after the other: entries come only from what was offered, doubling only by putting what has an entry, and without it single entries stay single and nothing is lost |
| `Pricing.FollowsExact` | core/tx_list.go:421-527 | exact accounting stays exact as long as nothing is put while it has an entry |
| `Pricing.DrainedCounted` | core/tx_list.go:447-527 | the accounting of a drained heap: right if and only if no transaction was dropped twice |
| `Pricing.DrainedTally` | core/tx_list.go:447-527 | the conservation law for a drained heap: each entry of a dropped transaction beyond its first is lost |
| `Pricing.DroppedAtMost` | core/tx_list.go:504-527 | of a transaction go no more entries than fit into count behind everything that ranks before it |
| `Pricing.DroppedAtLeast` | core/tx_list.go:504-527 | if an entry of a live remote transaction stays, at least as many of its entries go as fit into count behind everything else up to its rank, and count entries in all |
| `Pricing.UntiedNumber` | core/tx_list.go:504-527 | without ties the two bounds are the same |
| `Pricing.WastefulIff` | core/tx_list.go:504-527 | a transaction goes twice only if one has two entries with at most count - 2 entries before them, and, where no other entry has the rank of a doubled one, whenever one has |
| `PoolAccounts.AddedSound` | core/tx_pool.go:657-698 | adding an admissible transaction keeps an account in order: its pending nonces the interval from the state nonce to the pending nonce, its queue beyond, everything payable |
| `PoolAccounts.AddedLoose` | core/tx_pool.go:657-698 | adding puts in exactly the transaction, in place of the one that holds its place; no transaction is in two places |
| `PoolAccounts.RemovedSound` | core/tx_pool.go:889-928 | removing a transaction keeps an account in order |
| `PoolAccounts.RemovedLoose` | core/tx_pool.go:889-928 | removing loses exactly that transaction |
| `PoolAccounts.PromotedSound` | core/tx_pool.go:945-989 | promotion puts an account in order of which a new state only has left the queue to be looked at |
| `PoolAccounts.PromotedLoose` | core/tx_pool.go:945-989 | promotion keeps every pending transaction and leaves the next nonce's out of the queue, whatever the account's state |
| `PoolAccounts.PromotedCarries` | core/tx_pool.go:945-989 | promotion loses exactly outdated, unpayable and cap-exceeding transactions, and the latter only from the top |
| `PoolAccounts.CutSound` | core/tx_pool.go:1022-1061 | cutting a pending list from the top keeps an account in order |
| `PoolAccounts.DemotedCarries` | core/tx_pool.go:1110-1150 | demotion loses exactly mined and unpayable pending transactions |
| `PoolSteps.CourseKeeps` | core/tx_pool.go:628-1105 | whatever course of submissions, evictions, promotions and cuts an account goes through under one chain state, it stays in order if it was, without gaps if it was, and without doubles |
| `PoolResets.StepBetween` | core/tx_pool.go:838-928 | between a change of state and the demotion, whatever the new nonce: every step keeps the account's unmined pending nonces in two runs, opens no gap between them that was not there, and lets the pending nonce fall below the state nonce exactly by losing a mined transaction |
| `PoolResets.ResetSoundIff` | core/tx_pool.go:415-438 | for any new nonce and any course of the reinjection: after demotion and promotion the account has no gap if and only if its list was not torn, and is in order if and only if besides no mined pending transaction was lost in the meantime; a list is torn only where the nonce went down and something was reinjected |
| `PoolViews.CoursesKeepAll` | core/tx_pool.go:628-1105 | the same for all accounts of a pool at once |
| `PoolViews.PoolCount` | core/tx_pool.go:501-511 | in a consistent pool the lookup table has as many transactions as pending lists and queue together |
| `PoolViews.Count` | core/tx_pool.go:995-998 | the counting loop computes the total |
| `Pool.TxPool.constructor` | core/tx_pool.go:219-263 | a new pool is empty, consistent, settled and in order, with exact price accounting |
| `Pool.TxPool.EnqueueTx` | core/tx_pool.go:704-727 | into the queue iff acceptable there; the replaced one leaves the lookup; the price heap gets one entry, and a second one for the transaction only if it had one |
| `Pool.TxPool.PromoteTx` | core/tx_pool.go:745-778 | into the pending list iff acceptable there; the loser leaves the lookup, the pending nonce moves behind the winner |
| `Pool.TxPool.RemoveTx` | core/tx_pool.go:889-928 | removes exactly that transaction; pending ones behind it return to the queue and the pending nonce falls back; every other account is untouched, and so is every heartbeat but that of an account left without pending ones |
| `Pool.TxPool.PromoteAccount` | core/tx_pool.go:945-989 | the account becomes its promoted form, all others are untouched, whether or not it was in order |
| `Pool.TxPool.PromoteAccounts` | core/tx_pool.go:945-989 | for any order of accounts, each becomes its promoted form and the invariant holds for the whole pool; exactly the accounts of which something was promoted have been heard of |
| `Pool.TxPool.EqualizePending` | core/tx_pool.go:994-1064 | the pending lists end at a fair level: every remote account above its slots has the minimum of its size and the level, all others keep everything |
| `Fairness.FairIsMaximal` | core/tx_pool.go:994-1064 | max-min fairness: no level that fits the global limit gives any account more |
| `Fairness.FairIsLenient` | core/tx_pool.go:999-1008 | where the global limit is kept nothing is cut |
| `Fairness.FairOvershoot` | core/tx_pool.go:1022-1061 | the cut overshoots the global limit by less than the number of accounts cut |
| `Fairness.EqualizedFair` | core/tx_pool.go:1009-1062 | the end of the equalising rounds is fair |
| `Fairness.ByHeartbeat` | core/tx_pool.go:1071-1078 | all remote accounts with queued transactions, once each, sorted by heartbeat |
| `Pool.TxPool.TruncateQueue` | core/tx_pool.go:1065-1104 | the queue ends at exactly the global limit, or at what the locals have; locals lose nothing; nobody loses anything before accounts heard of later have lost all |
| `Pool.TxPool.PromoteExecutables` | core/tx_pool.go:933-1105 | promotion, fair equalisation and truncation in this order; no account's state is asked for, each only takes steps that keep it in order if it was; local accounts lose nothing that could still be executed, promoted remote ones end with no more queued than an account may; the promoted ones have nothing executable in the queue; pending transactions within the slots are kept |
| `PoolBooks.NothingLost` | core/tx_pool.go:933-1105 | promotion and limits lose nothing of a pool that is in order and so small that it reaches no limit |
| `Pool.TxPool.SetGasPrice` | core/tx_pool.go:471-480 | exactly the remote transactions below the price leave; entries are lost to the stale count if and only if one of them had two |
| `Pool.TxPool.EvictIdle` | core/tx_pool.go:317-331 | exactly the queues of remote accounts not heard of for longer than the lifetime are emptied |
| `Pool.TxPool.ValidateTx` | core/tx_pool.go:570-618 | the first of the checks that fails, in the source's order, and what each error says is wrong; none if and only if nothing is, that is, if the transaction is admissible |
| `Pool.TxPool.MakeRoom` | core/tx_pool.go:649-655 | drops the cheapest remote transactions, of one sender at one price those with the highest nonces, no more than are too many; nothing exactly if there is room or only locals are there; unless one that is dropped had two price entries, there is room afterwards or only locals are left, and no entry is lost |
| `Pool.TxPool.Squeeze` | core/tx_pool.go:641-656 | a remote transaction is turned away exactly if the pool is full and nothing in it is cheaper; otherwise nothing is dropped exactly if there is room or only locals are there |
| `Pool.TxPool.Insert` | core/tx_pool.go:657-698 | replaces a pending predecessor or goes to the queue, exactly if it outbids what is there; a rejection changes nothing; the sender becomes local exactly if the transaction is local and did not replace a pending one |
| `PoolBooks.PlacementIs` | core/tx_pool.go:657-690 | being outbid by the account's incumbent is being outbid by the known transaction in the same place |
| `Pool.TxPool.Add` | core/tx_pool.go:628-699 | the exact verdict in each case: known, objected to, too cheap, not enough of a bump, or added and in whose place; the one in its place is replaced exactly if it is cheaper and the bump is met, in prices; exactly when something is dropped for it, also where it is then refused; the exact new lookup table and, if nothing is dropped, the exact new account and locals; exact price accounting stays exact unless the transaction goes in while it has an entry, and no entry is lost unless one of those dropped had two |
| `Pool.TxPool.AddTxs` | core/tx_pool.go:829-859 | each transaction of a batch gets its verdict on the table as those before it have left it; then exactly the accounts that gained one are promoted and the limits enforced; nothing executable is left in the queue; a small pool in order loses nothing; local accounts lose nothing that could still be executed, and remote ones that gained end with no more queued than an account may; exact price accounting stays exact unless one goes in while it has an entry, and no entry is lost unless one of those dropped had two |
| `Pool.TxPool.DemoteAccount` | core/tx_pool.go:1110-1150 | the account's lists become their demoted form and exactly the dropped transactions leave the lookup; its heartbeat goes exactly if nothing stays pending, all others stay |
| `Pool.TxPool.DemoteUnexecutables` | core/tx_pool.go:1110-1150 | the same for all accounts, in any order |
| `Pool.TxPool.ResetNonces` | core/tx_pool.go:430-434 | the pending nonce is one above the highest pending one wherever something is pending, and stays otherwise |
| `Pool.TxPool.Reinject` | core/tx_pool.go:415-422 | under the new state, each reinjected transaction gets its verdict; whatever is evicted or cut for it, each account takes only possible steps from where the new state found it; price accounting as for a batch |
| `Pool.TxPool.Reset` | core/tx_pool.go:415-438 | for every new state and every list of transactions to reinject the pool is consistent and settled afterwards; an account that had no gap has none if and only if its list was not torn, and if it was not, is in order if and only if no mined pending transaction was lost in between, and else its pending nonce is below its state nonce; with room for the reinjected ones in the slots, and no nonce going down, every account is in order; local accounts keep exactly what is neither mined nor unpayable, remote ones have no more queued than an account may; price accounting as for a batch |
| `PoolBooks.ResetOutcome` | core/tx_pool.go:415-438 | the same for one account, given the pool when the lists are demoted |
| `PoolBooks.LocalsKeepEverything` | core/tx_pool.go:423-438 | demotion, promotion and limits leave a local account exactly the transactions neither mined nor unpayable, in values, prices and gas |
| `Pool.TxPool.Run` | core/tx_pool.go:268-1150 | any run of submissions, removals, price changes, evictions and heads with reinjection keeps the pool consistent and leaves nothing executable in the queue; without gaps unless reinjection meets a lower nonce; and every account is in order that was so at the beginning, or after any new head, if every head from there on reinjects nothing or finds room for it in the slots; with exact price accounting unless a transaction is put while it has an entry |
| `PoolRuns.RefusedYetDropped` | core/tx_pool.go:641-664 | a full pool drops another account's transaction for an offer that it then refuses |
| `PoolRuns.MinedDropped` | core/tx_pool.go:415-438 | a full pool that drops a mined transaction for a reinjected one hands out a nonce below the account's afterwards |
| `PoolRuns.TornApart` | core/tx_pool.go:415-434 | an account whose nonce goes down, and of whose two reinjected transactions one is refused, keeps a gap among its pending ones |
| `PoolBooks.Outcomes` | core/tx_pool.go:415-438 | a new head leaves a pool without gaps so unless reinjection meets a lower nonce, and in order if nothing is reinjected |
| `PoolBooks.PricesDecide` | core/tx_pool.go:657-690 | who wins a place that is taken, in prices |
| `PoolBooks.CheapestFromTop` | core/tx_pool.go:649-655 | of one sender's transactions at one price, those that stay have lower nonces than those dropped |
| `PoolBooks.LocalPromotion` | core/tx_pool.go:971-989 | promotion and limits take nothing from a local account that could still be executed |
| `PoolBooks.RemoteCapped` | core/tx_pool.go:971-989 | a promoted remote account has no more queued than it may |
| `PoolBooks.ObjectionIsFlaw` | core/tx_pool.go:570-618 | each error names what is wrong, and nothing that is checked before it is |
| `PoolRuns.BelowTheBump` | core/tx_pool.go:657-664 | with a bump of ten percent 101 does not replace 100, and 110 does |
| `PoolRuns.LocalReplacement` | core/tx_pool.go:657-698 | a local offer that replaces a pending transaction leaves its sender remote, the next one makes it local |
| `PoolRuns.NewcomerLoses` | core/tx_pool.go:1065-1103 | with room for one of two queued transactions, the account not heard of keeps its own and the one just heard of loses its own |
| `PoolRuns.CountedTwice` | core/tx_list.go:421-474 | four remote transactions, one of which times out, comes back and falls below a new price floor: the stale count is wrong |
| `Ancestry.AncestorIsUnique` | core/headerchain.go:328-358 | a block has one ancestor at each height |
| `Forks.TxDifference` | core/types/transaction.go:275-290 | what is in the first list and not in the second, in order |
| `Forks.Reinjected` | core/tx_pool.go:358-405 | unless the old head is the parent or further off than 64, the walk meets in the highest shared ancestor and yields exactly the transactions of ancestors of the old head only that are in no ancestor of the new head only; it fails if and only if there is no shared ancestor |
| `Forks.WalkingDone` | core/tx_pool.go:386-403 | where the walk meets, the shared ancestors are exactly the ancestors of the meeting block |
| `Forks.ChildLeavesNothing` | core/tx_pool.go:362 | the shortcut for a direct child loses nothing |
| `HeaderChains.IndexIsAncestry` | core/headerchain.go:157-187 | a block is an ancestor of the head if and only if it is the canonical block at its height |
| `HeaderChains.HeaderChain.DeleteAbove` | core/headerchain.go:158-167 | removes exactly the canonical entries above the number |
| `HeaderChains.HeaderChain.Rewrite` | core/headerchain.go:169-181 | terminates with the index being the chain of the given block, whatever it was before |
| `HeaderChains.HeaderChain.WriteHeader` | core/headerchain.go:134-198 | keeps: every header rooted, difficulties accumulated, the index the head's chain and nothing above it, the head heaviest; canonical exactly if heavier, or equal and the coin falls so |
| `HeaderChains.HeaderChain.InsertHeaderChain` | core/headerchain.go:262-298 | stores exactly the headers up to the first one without a parent; the head never gets lighter |
| `HeaderChains.HeaderChain.GetAncestor` | core/headerchain.go:328-358 | answers with the parent walk exactly if few enough blocks are off the canonical chain, and accounts for them; the one exception is the zero hash above the head, with its wrong answer |
| `HeaderChains.HeaderChain.SetHead` | core/headerchain.go:458-493 | the index stays the head's chain, and exactly the old head's ancestors above the number are deleted |
| `BlockChains.BlockChain.Insert` | core/blockchain.go:500-517 | the canonical entry and the head become the block; the other heads follow unless it was canonical |
| `BlockChains.BlockChain.WriteLookupEntries` | core/rawdb/accessors_indexes.go:43-58 | an entry for each transaction of the block |
| `BlockChains.BlockChain.FindFork` | core/blockchain.go:1442-1482 | the branches meet in the highest shared ancestor; yields the new branch's blocks and exactly the old branch's transactions; fails if and only if they share nothing |
| `BlockChains.BlockChain.Graft` | core/blockchain.go:1494-1502 | index and lookup table follow the new branch block by block |
| `BlockChains.BlockChain.Reorg` | core/blockchain.go:1415-1511 | afterwards the index is the new block's chain, and the lookup table equals a scan of it if it did of the old one and no chain repeats a transaction; on failure nothing has changed |
| `BlockChains.FindsPurged` | core/blockchain.go:1503-1511 | deleting exactly the old branch's transactions that the new one lacks leaves the table equal to a scan of the new chain |
| `BlockChains.FindsChild` | core/blockchain.go:1033-1034 | entering a block's transactions extends the scan by that block |
| `BlockChains.BlockChain.Adopt` | core/blockchain.go:1026-1048 | on whichever branch the block is, index and lookup table become those of its chain |
| `BlockChains.BlockChain.WriteBlock` | core/blockchain.go:923-1051 | keeps: head heaviest, numbers up to the head index its ancestry, and, as long as no chain repeats a transaction, lookup equals a full scan; heavier is canonical and lighter side, at equal weight a lower number is canonical and a higher one side, at equal number it is canonical exactly if the old head is not to be preserved and it is, or the coin says so |
| `TrieGc.RootsPermuted` | core/blockchain.go:962-964 | the references owed depend on the queued entries only, not on their order |
| `TrieGc.Collector.Collect` | core/blockchain.go:993-1000 | gives back exactly the references of blocks numbered up to the mark |
| `TrieGc.Collector.Write` | core/blockchain.go:962-1001 | references minus releases equal the queued roots; exactly the states at least 128 below the block are released, and none for blocks up to 128 |
| `TrieGc.Collector.Stop` | core/blockchain.go:717-719 | the drain brings the balance to zero |
| `HashFns.HashFn.GetHash` | core/evm.go:62-85 | the cached answer equals the parent walk from the reference header, whatever was asked before |
| `HashFns.SearchFindsAncestor` | core/evm.go:76-82 | the walk finds the hash of the ancestor with that number |
| `HashFns.SearchAbove` | core/evm.go:83 | no answer for numbers not below the reference header |
| `Feeds.Find` | event/feed.go:213-220 | the first case with the channel, or none |
| `Feeds.Feed.Subscribe` | event/feed.go:73-93 | adds one subscription |
| `Feeds.Feed.Delete` | event/feed.go:223-225 | shifting in place removes exactly the case at the index |
| `Feeds.Feed.Deactivate` | event/feed.go:228-232 | swaps the case with the last active one |
| `Feeds.Feed.TakeInbox` | event/feed.go:135-138 | the cases are extended by the inbox, in place or in a larger array |
| `Feeds.Feed.Unsubscribe` | event/feed.go:104-125 | removes one subscription of the channel, from the inbox first |
| `Feeds.Feed.TrySend` | event/feed.go:155-165 | for any pattern of offers taken, served cases move behind the active ones and are counted |
| `Feeds.Feed.RemoveCase` | event/feed.go:169-177 | a removal in the middle of a send takes the case out of the active or the served part, whichever it is in |
| `Feeds.Feed.Send` | event/feed.go:129-190 | for every interleaving with receivers, removals and new subscriptions: what was sent and what was removed unserved add up to the subscriptions of the start, so each one not removed is served once, a removed one at most once, and one that joins meanwhile not at all; the count is exact; subscriptions afterwards are those of the start and the new ones, less those removed or gone again |
| `Feeds.Feed.Handle` | event/feed.go:73-118 | new subscriptions go to the inbox during a send, and a cancelled one leaves it exactly if it is still there: how often each channel is there afterwards |
| `Feeds.CancelledIsGone` | event/feed.go:104-118 | a channel that was in the inbox once, cancelled and did not subscribe again is not there any more |
| `ChainIndexers.ChainIndexer.SetValidSections` | core/chain_indexer.go:453-465 | the count is set and exactly the heads at or above it are removed |
| `ChainIndexers.ChainIndexer.AddCheckpoint` | core/chain_indexer.go:127-139 | stores the checkpoint's head as given unless its section is stored; nothing else changes |
| `ChainIndexers.ChainIndexer.OnNewHead` | core/chain_indexer.go:239-296 | after a reorganisation the stored sections end at or below the head or with the checkpoint's, and none is given up that does; otherwise only the known count grows, to the highest section all of whose blocks are confirmed, past a checkpoint only if it matches |
| `ChainIndexers.ChainIndexer.BeginUpdate` | core/chain_indexer.go:313-332 | takes on the first section not stored, from the head of the one before |
| `ChainIndexers.ChainIndexer.ProcessHeader` | core/chain_indexer.go:392-407 | a header that does not follow the last one breaks the job off |
| `ChainIndexers.ChainIndexer.ResetFails` | core/chain_indexer.go:387-390 | a failed reset forgets all sections, processed and given |
| `ChainIndexers.ChainIndexer.FinishUpdate` | core/chain_indexer.go:345-362 | stores the section exactly if all headers were processed and the head it started from still stands; exactly the sections below it stay |
| `ChainIndexers.ChainIndexer.Run` | core/chain_indexer.go:239-412 | in any interleaving the stored heads are exactly those processed and those given by a checkpoint, and every processed one is sectionSize parent links above the head before it; without a checkpoint they are all sections below the count, and the last head is exactly that many blocks above the zero hash; with one checkpoint the last head leads back to the checkpoint's |
| `ChainIndexers.RevertedBlocks` | core/chain_indexer.go:244-271 | what going back by whole sections means in blocks |
| `ChainIndexers.SectionsAreOneChain` | core/chain_indexer.go:382-412 | consecutively processed sections form one chain on top of the head they started from |
| `ChainIndexers.LastHead` | core/chain_indexer.go:417-422 | how many parent links the last head is above the checkpoint's, or above the zero hash |
| `ChainIndexers.WhereTo` | core/chain_indexer.go:417-422 | which heads are stored, with and without a checkpoint, and where the last one leads |
| `ChainIndexers.CheckpointUndone` | core/chain_indexer.go:345-350 | a checkpoint added while a section is processed is undone when that one is stored |
| `Gas.IntrinsicGas` | core/state_transition.go:79-109 | 21000, or 53000 for a creation since homestead, and 68 for each byte that is not zero and 4 for each that is, or an error exactly if that exceeds 64 bits |
| `Gas.ChargeIsRefunded` | core/state_transition.go:230-236 | of what was spent as much is given back as the counter says, but no more than half |
| `Gas.GasPool.AddGas` | core/gaspool.go:29-35 | adds, without overflow |
| `Gas.GasPool.SubGas` | core/gaspool.go:39-45 | subtracts, or fails and changes nothing |
| `Gas.StateTransition.BuyGas` | core/state_transition.go:152-166 | power is checked before the block's gas; either both are taken or neither |
| `Gas.StateTransition.RefundGas` | core/state_transition.go:230-245 | refund capped at half of what was spent; unused gas returns to sender and block |
| `Gas.StateTransition.PreCheck` | core/state_transition.go:168-179 | which error, in order, or the purchase |
| `Gas.StateTransition.TransitionDb` | core/state_transition.go:184-228 | refused exactly for the first check that fails, and what each error says is wrong; a message that goes through costs the block exactly the gas charged, which is what was spent less as much of the refund as half of it allows, and its sender exactly that times the price; one refused before the purchase changes nothing, one refused after it leaves block and sender without the whole purchase |
| `Gas.ApplyTransaction` | core/state_processor.go:91-129 | the same for one transaction, refused or not, with the running total and the failure in the receipt |
| `Gas.Process` | core/state_processor.go:57-85 | over any accepted block, gas left plus gas used is the limit, receipts carry running totals, and every account's power changed by the machine's effect less its fees; a rejected block is rejected for the first message refused on the books as those before it left them |
| `Gas.SetReceiptsData` | core/blockchain.go:780-815 | fails exactly if there is not one receipt for each transaction; otherwise recovers every receipt's own gas from the running totals in 64-bit arithmetic, and numbers the logs through the whole block |
| `Gas.DifferenceRecovers` | core/blockchain.go:798-803 | the difference of neighbouring running totals is the individual value |
| `Distributors.Place` | les/distributor.go:240-249 | the position that keeps the queue sorted by order |
| `Distributors.Distributor.Queue` | les/distributor.go:231-258 | inserted in order of creation, also when queued again; gets a channel of its own |
| `Distributors.Distributor.Cancel` | les/distributor.go:263-274 | closes the channel and removes the request, and no other, exactly if it still waits |
| `Distributors.Distributor.NextRequest` | les/distributor.go:176-225 | drops exactly front requests nobody can serve; afterwards the front is servable or the queue empty; the request returned is the earliest its peer can serve, and no peer could start on its own earlier |
| `Distributors.Distributor.SendNext` | les/distributor.go:129-138 | the channel is told the peer and closed once; the request is the earliest queued one the peer can serve; those before the first that can be served are given up, and all others stay as they are |
| `Distributors.Distributor.Dispatch` | les/distributor.go:124-157 | sends until the next request has to wait or none is left; whatever has left the queue was told to a peer that could start on it at once, or given up because no peer could serve it; what is still there waits as before |
| `Distributors.Distributor.Stop` | les/distributor.go:113-123 | closes the channels of all waiting requests |
| `Distributors.Distributor.Run` | les/distributor.go:110-283 | in any run the queue stays sorted, closed channels stay closed and unchanged, and no channel gets two peers |
| `DerivationPaths.ParseDerivationPath` | accounts/hd.go:67-117 | computes the parse function, with its errors |
| `DerivationPaths.ToString` | accounts/hd.go:121-135 | computes the print function |
| `DerivationPaths.RoundTrip` | accounts/hd.go:67-135 | parsing the printed form gives the path back if and only if it is not empty |
| `DerivationPaths.ParseShow` | accounts/hd.go:90-114 | every 32-bit component is read back from its printed form, hardened ones with the quote mark |
| `DerivationPaths.SplitJoin` | accounts/hd.go:71 | splitting undoes joining for parts without a slash |
| `DerivationPaths.ParseDecimal` | accounts/hd.go:100 | decimal notation is read back as the number |
| `DerivationPaths.ParsePrefixed` | accounts/hd.go:100 | hexadecimal, binary and octal notation are read back as the number |
| `DerivationPaths.ParseSigned` | accounts/hd.go:100 | a minus sign gives the negative number, a plus sign changes nothing |
| `DerivationPaths.ComponentOf` | accounts/hd.go:95-110 | a component is its number if that is below 2^32, with a quote mark 2^31 more if it is below 2^31, and else out of range |
| `DerivationPaths.HexadecimalComponent` | accounts/hd.go:95-110 | the same for hexadecimal notation |
| `DerivationPaths.NegativeComponent` | accounts/hd.go:104-109 | negative components are out of range |
| `DerivationPaths.RootAndErrors` | accounts/hd.go:67-103 | the default root, and which error an empty path, a missing prefix and a bad component give |
| `DerivationPaths.RelativeToRoot` | accounts/hd.go:81-83 | a relative path means the same as the absolute one under the default root |
| `DerivationPaths.PaddingIsIgnored` | accounts/hd.go:91-92 | white space around a component changes nothing |
| `DerivationPaths.TwoSpellings` | accounts/hd.go:95-110 | a hardened component can also be written without the quote mark, as the number from 2^31 on: both spellings are read alike |

## Left out

- Pool.TxPool.PromoteExecutables, Pool.TxPool.AddTxs, Pool.TxPool.Reset, Pool.TxPool.Run: ask for at least one slot per
  account; with none the source would keep empty pending lists.
- Pool.TxPool.Reset: which transactions are reinjected is a parameter here; `Forks.Reinjected` says which they are. Whether
  the limits cut a torn list back to where it has no gap is not said.
- Pool.TxPool.Run: once a list has been torn, the pool is followed no further than `Valid()` and `Settled()` go.
- Pool.TxPool.Add: whose sender becomes local is not said where the transaction replaces another and something was dropped
  for it.
- Pricing.TxPricedList.Discard: which of several entries with the same price and nonce go is left to the heap's layout.
- Pool.TxPool: the pending and queue tables hold the lists as values, not as `TxList` objects; updates of
  a list in place are proved on `TxList` itself and not seen through the tables. `sort.Sort` is an
  insertion sort and `prque` a search for the largest entry or the binary heap.
- Pool.TxPool.EvictIdle: an account without a heartbeat counts as silent for ever; the clock is a parameter, and
  heartbeats are numbers.
- Pool.TxPool.AddTxs: whether a batch counts as local is a parameter; `AddLocal` passes the option
  `NoLocals` there as it is.
- HeaderChains.HeaderChain.SetHead: says nothing about side branches whose lower part is deleted, nor
  about the head being heaviest afterwards.
- BlockChains.BlockChain.WriteBlock: canonical entries above a lower new head are not cleared by the
  source and not constrained here; log events, receipts, preimages and state commits are not modelled. What the
  lookup table holds once a chain repeats a transaction is not said.
- TrieGc.Collector.Write: flushing tries to disk by size or time is not modelled; it does not touch
  the references.
- Feeds.Feed.Send: the value set in the cases and the type checks are not modelled.
- Feeds.Feed.Unsubscribe: a subscription is cancelled at most once, which the source ensures with a
  `sync.Once`.
- ChainIndexers.ChainIndexer.Run: one indexer without children; that a stored section is still
  canonical is not claimed, only that it is linked.
- Distributors.Distributor.Queue: a request is queued again only once it has left the queue; the wake-up signals of the
  loop and the weights of the random choice are not modelled.
- DerivationPaths.ParseDerivationPath: text is a sequence of Unicode characters; invalid encodings are
  not modelled.
- HashFns.HashFn.GetHash: the chain does not grow between questions.
- Inserting chains of blocks, header verification, fast sync, uncles, the consensus engine, the virtual machine, tries,
  encodings, signatures, the pool's journal, metrics, logging, networking and RPC.
- Light-client block trees and client balances (`les/fetcher.go`, `les/freeclient.go`), and the wallet list of the account
  manager.
