# A verified model of hcashd's node logic

This project models, in Dafny 4.11, the parts of the hcashd node that keep state
across many messages or calls, and proves what they keep:

- the **address manager** (`AddrBook`, `AddrManager`, `AddrStore`): one index of
  known addresses, 1024 "new" buckets with a reference count per address, 64
  "tried" lists and two counters, through adds, expiry, promotion, eviction,
  selection, saving and loading;
- the **block template builder** (`TxQueue`, `Replay`, `Drafts`, `Greedy`,
  `Selection`, `Template`, `ParentSort`, `FeeSplit`): the priority queue and its
  change of order, the dependency graph among pool transactions, the selection
  loop under its limits, which refines a greedy choice said without queue and
  graph, the ranking of parents by votes, and the 60/30/10 split of fees over key
  and micro blocks;
- the **block locator protocol** (`Locator`): the locator one node builds, the
  search another node makes with it, and how close to the fork they land;
- the **block manager** (`SyncManager`): peers, the sync peer, headers-first
  mode, checkpoints, and the record of what was requested from whom;
- the **key-block lookup** (`KeyBlock`), a binary search whose lower end is never
  moved past the middle;
- the **websocket queues and peer tables** (`Relay`, `PeerTable`).

`Wrappers` and `Sequences` hold helpers.

Values carry the invariants and the lemmas. Where the program updates objects in
place, a class does too, and each of its methods is proved against the function
or predicate on values that says what it does. The address manager's class keeps
the program's object structure: buckets and tried lists hold the very objects of
the index. Loops are loops with invariants. The goroutines around a websocket
client are a state machine whose steps may come in any order.

What is nondeterministic in the program (map iteration order, random draws,
which entry a full map drops, the order in which a sort leaves equal elements) is
left open in the model. Clocks, random numbers and the answers of components that
are not modelled come in as parameters.

## Where the code and its documentation disagree

The model follows the code.

- A locator of a side-chain block is documented to list the side chain's blocks.
  The walk at `blockchain/blocklocator.go:121` never moves, so none of them but
  the first is listed (`Locator.SideChainLocator`, `Locator.DocumentedExample`).
- A current top block that ties with the leader is documented to stay first. The
  comparison at `mining.go:336` uses the number of vote lists, which is always
  one. `ParentSort.TopStaysExactly` says for which blocks and votes the rule holds
  all the same; `ParentSort.TopMayLoseTie` shows it failing for every number of
  tickets above one.
- A new bucket can hold 65 addresses, one more than its size, because the test at
  `addrmgr/addrmanager.go:224` is strict (`AddrBook.InsertAdds`,
  `AddrBook.OverfullReached`); the invariant says 65.
- `reset` does not clear the two counters. `AddrStore.FailedLoad` says for which
  files a failed load leaves a sound manager, and `AddrStore.FailedLoadMiscounts`
  shows one for which it does not.
- The check after a load is to find addresses that are neither new nor tried, or
  both; it does not find one that is listed twice as tried (`AddrStore.LoadedCounts`,
  `AddrStore.LoadedMiscounts`).
- When the block of the front header comes while the cursor is still on that header,
  the headers after it are not fetched any more (`SyncManager.RestKept`).
- `requestFromPeer` records requests before it sends them, so that a failure leaves
  blocks on record that no peer was asked for (`SyncManager.OwedExactly`).
- An outbound peer that is done before its version is known is taken off its list
  but not counted out of its group (`PeerTable.DoneKeepsExact`).

## Model

| member | source | states |
|---|---|---|
| `AddrBook.RunKeeps` | addrmgr/addrmanager.go:163-275 | In every state that any sequence of add, attempt, connected and good calls reaches from a fresh manager, the invariant holds: each indexed address is filed under its own key and is routable, and is either tried (no references, listed where its hash says) or new (as many references as buckets that hold it, between 1 and 8); bucket and list sizes are bounded; both counters are the sizes of the two classes |
| `AddrBook.UpdateAddressKeeps` | addrmgr/addrmanager.go:163-235 | Adding or re-announcing any address keeps the invariant, whatever is drawn and whatever order the bucket is scanned in |
| `AddrBook.UpdateAddressScope` | addrmgr/addrmanager.go:163-275 | An added routable address is known afterwards; no other appears; an address is forgotten only if it was in the bucket that was over its size and in no other |
| `AddrBook.UpdateAddressRecords` | addrmgr/addrmanager.go:163-235 | What an add writes, field by field: a new address has no attempts and one reference; a known one is refreshed by a later time stamp or a new service; it enters a further bucket unless it is tried or in eight, with a chance of one in twice that number; no other bucket changes, and other entries only if they are thrown out to make room |
| `AddrBook.MakeRoom` | addrmgr/addrmanager.go:239-275 | Expiring a bucket keeps the invariant, makes the bucket strictly smaller, and leaves every address outside the bucket as it was |
| `AddrBook.BadIsWorthless` | addrmgr/knownaddress.go:69-100 | Which addresses are thrown out: not tried in the last minute, and over ten minutes ahead, over thirty days old, never a success in three attempts, or none for seven days and ten failures |
| `AddrBook.InsertAdds` | addrmgr/addrmanager.go:222-233 | A bucket of up to 64 addresses takes one more and loses none |
| `AddrBook.OverfullReached` | addrmgr/addrmanager.go:222-233 | Whatever the hash, adding 1.2.3.0 to 1.2.3.64 to a fresh manager leads to a bucket of 65 addresses |
| `AddrBook.GoodKeeps` | addrmgr/addrmanager.go:857-941 | Marking an address good keeps the invariant, with and without an eviction |
| `AddrBook.GoodPromotes` | addrmgr/addrmanager.go:858-937 | After a handshake the address is tried, with no references, no failed attempts, and success and last attempt now, and nothing else of its entry changes. A new one leaves all its buckets for the end of its tried list, or, if that has 256, for the place of the first with the oldest time stamp; that one is new again with one reference and its entry otherwise as before, in the one bucket that its hash gives if that has fewer than 64 others, and otherwise in the first that held the promoted one |
| `AddrBook.AttemptKeeps` | addrmgr/addrmanager.go:816-829 | Counting an attempt keeps the invariant |
| `AddrBook.AttemptRecords` | addrmgr/addrmanager.go:817-831 | An attempt counts one up and sets the time of the last one, and changes nothing else |
| `AddrBook.ConnectedKeeps` | addrmgr/addrmanager.go:834-852 | Noting a connection keeps the invariant |
| `AddrBook.ConnectedRecords` | addrmgr/addrmanager.go:836-855 | A connection sets the time stamp to now if that is over twenty minutes later, and changes nothing else |
| `AddrBook.EmptyKeeps` | addrmgr/addrmanager.go:1087-1097 | A fresh manager satisfies the invariant |
| `AddrBook.ClassesPartition` | addrmgr/addrmanager.go:616-618 | The two counters add up to the size of the index, and a class counted as non-empty has a non-empty bucket or list |
| `AddrBook.OneTriedSlot` | addrmgr/addrmanager.go:904-940 | A tried address is in exactly one slot of exactly one tried list |
| `AddrBook.NewIsHeld` | addrmgr/addrmanager.go:189-203 | A new address has at least one reference and is found in some bucket, so the draw bounded by twice its references is never asked for with a bound of zero |
| `AddrBook.SourceSpread` | addrmgr/addrmanager.go:290-315 | All that one source group announces lies in at most 64 of the 1024 new buckets |
| `AddrBook.GroupSpread` | addrmgr/addrmanager.go:317-345 | All tried addresses of one group lie in at most 8 of the 64 lists |
| `AddrBook.Intn` | addrmgr/addrmanager.go:199-203 | A draw needs a positive bound and lies below it |
| `AddrManager.Manager.ExpireNew` | addrmgr/addrmanager.go:239-275 | The scan of the bucket's objects drops every bad address and the oldest of the others, whatever order the map is read in, and leaves objects, index and buckets in step |
| `AddrManager.Manager.UpdateAddress` | addrmgr/addrmanager.go:163-235 | The method on the shared objects does what the table operation does and keeps the invariant |
| `AddrManager.Manager.Attempt` | addrmgr/addrmanager.go:816-829 | The same for an attempt |
| `AddrManager.Manager.Connected` | addrmgr/addrmanager.go:834-852 | The same for a connection |
| `AddrManager.Manager.PickTried` | addrmgr/addrmanager.go:280-290 | The slot given up is the first with the oldest time stamp |
| `AddrManager.Manager.Good` | addrmgr/addrmanager.go:857-941 | The same for a good address: leaving its buckets one by one, entering its tried list, and sending the evicted object back |
| `AddrManager.Manager.GetAddress` | addrmgr/addrmanager.go:743-808 | The branch taken always has something to draw; what is returned is the indexed object, routable, of the chosen class; with an empty manager nothing is; with no result every draw was a miss |
| `AddrManager.Manager.AddressCache` | addrmgr/addrmanager.go:639-669 | The sample has 23 percent of the addresses but at most 2500, all of them indexed and no two the same |
| `AddrManager.Shuffle` | addrmgr/addrmanager.go:655-664 | The partial shuffle only permutes |
| `AddrManager.Manager.constructor` | addrmgr/addrmanager.go:1087-1097 | A new manager is empty and satisfies the invariant |
| `AddrStore.RoundTrip` | addrmgr/addrmanager.go:360-523 | Loading what was saved into a fresh manager passes every check and gives back the key, index keys, buckets, tried order, references, tried flags, attempts and counters; only the time stamps and services of addresses are not restored |
| `AddrStore.RestoredKeeps` | addrmgr/addrmanager.go:437-523 | The restored tables satisfy the invariant again |
| `AddrStore.SavePeers` | addrmgr/addrmanager.go:360-401 | The file holds exactly the manager's tables, with maps written in any order |
| `AddrStore.DeserializePeers` | addrmgr/addrmanager.go:437-523 | Reading a file into the objects does what loading says on values, including where it stops on an error |
| `AddrStore.LoadPeers` | addrmgr/addrmanager.go:418-433 | After an error the tables are empty under a new key and the counters are what the failed load left |
| `AddrStore.CheckSanity` | addrmgr/addrmanager.go:509-520 | The last check accepts exactly the tables in which each address is either new or tried |
| `AddrStore.FailedLoad` | addrmgr/addrmanager.go:437-523 | A load that fails leaves a manager that satisfies the invariant if and only if the file has another version, or an address or source that does not parse, or no bucket entry at all, or a first entry, new buckets before tried ones, that is none of its addresses |
| `AddrStore.FailedLoadMiscounts` | addrmgr/addrmanager.go:418-433 | A file with one address in its first bucket and an unknown one in its second leaves a manager that does not satisfy the invariant |
| `AddrStore.AddressesRead` | addrmgr/addrmanager.go:462-480 | Reading the addresses counts nothing; it succeeds exactly if they all parse, and then indexes exactly their keys |
| `AddrStore.LoadedCounts` | addrmgr/addrmanager.go:462-523 | After any load that succeeds the new addresses are counted exactly, and the tried ones if and only if no address is named twice in the tried lists of the file |
| `AddrStore.LoadedMiscounts` | addrmgr/addrmanager.go:496-523 | A file that names one address twice in a tried list passes every check and leaves a count of two |
| `Locator.ForkFound` | server.go:790-835 | Two nodes whose main chains agree up to height f and nowhere above: for any stop hash, the answer to the locator of a tip at height h is the run of blocks right after a common block p at or below f, without a gap, up to the stop block, the message limit and the tip, or an error if the stop block is at or below p; p is f when f is at most ten blocks down, and otherwise p is at most 2(h-f)-10 blocks down |
| `Locator.BlockLocatorFromHash` | blockchain/blocklocator.go:43-150 | The loop builds the locator that is described height by height, for main-chain, side-chain, unloaded and unknown blocks, and never exceeds the message limit |
| `Locator.ListHeights` | blockchain/blocklocator.go:97-149 | The heights listed between the block and genesis; doubling the step never leaves the range of a 64-bit integer |
| `Locator.FindFork` | blockchain/blocklocator.go:74-87 | The walk over parents gives the height of the first block back on the main chain whose own parent is loaded, and -1 exactly when there is none |
| `Locator.ForkIsFirst` | blockchain/blocklocator.go:74-87 | The same of the function the locator is described with |
| `Locator.HeightsDecrease` | blockchain/blocklocator.go:97-145 | The heights in a locator decrease strictly |
| `Locator.LandingNear` | blockchain/blocklocator.go:97-145 | The first listed height at or below a fork is the fork when that is at most ten blocks down, and otherwise overshoots it by less than its depth |
| `Locator.LocatorShort` | blockchain/blocklocator.go:97-145 | No locator of any block has more than 42 entries, so the message limit never cuts one short |
| `Locator.StartsAtLanding` | server.go:815-824 | The scan of a locator stops at the first entry at or below the fork |
| `Locator.LocateBlocks` | server.go:790-835 | The loop gives that answer |
| `Locator.LocatedMeans` | server.go:790-835 | The answer to any locator: it starts after the first entry on the main chain, or after genesis if there is none, and is a run of blocks without a gap that ends early only at 2000 or at the stop block; an error exactly if the stop block lies before it; without a locator, the stop block if it is on the main chain |
| `Locator.OnGetBlocks` | server.go:718-786 | The inventory is such a run of at most 500, empty if the stop block lies before it; the last hash is remembered exactly when a full run was cut short before the stop block |
| `Locator.FetchRange` | server.go:833-835 | The range of main-chain hashes from one height up to another, with its errors |
| `Locator.SideChainLocator` | blockchain/blocklocator.go:113-145 | The locator of any side-chain block is that block followed by main-chain blocks only: those of a locator started one above the fork, or at the block's own height when no fork is found; no other side-chain block is in it |
| `Locator.SideChainHeights` | blockchain/blocklocator.go:113-145 | Above the fork nothing is listed and the step does not grow |
| `Locator.DocumentedExample` | blockchain/blocklocator.go:22-28 | In the documented example the locator of 17a does not contain 16a |
| `KeyBlock.HandleGetKeyBlockHash` | rpcserver.go:2136-2237 | On a chain whose key height goes up by one after each key block, the call always ends; it returns the hash of the unique key block with the key height if there is one and an error otherwise, including at the tip and for negative heights |
| `KeyBlock.FindAny` | rpcserver.go:2171-2209 | The binary search ends and finds a block at the key height whenever that is not negative and below the tip's |
| `KeyBlock.NoStraddle` | rpcserver.go:2184-2208 | Neighbouring blocks cannot lie on both sides of a key height, which is why a search that keeps its middle ends |
| `KeyBlock.KeyHeightsRise` | mining.go:1355-1365 | Key heights never fall, and rise strictly after a key block |
| `KeyBlock.KeyBlockUnique` | mining.go:1355-1365 | At most one key block has a given key height |
| `FeeSplit.FeesConserved` | mining.go:2244-2311 | Over any chain of key and micro blocks with at most as many votes per block as tickets, the fees paid never exceed those collected |
| `FeeSplit.Solvent` | mining.go:2244-2311 | After every block, ten times what was paid plus what later blocks are still due is covered by ten times what was collected |
| `FeeSplit.NothingLost` | mining.go:2276-2289 | With all votes, fees divisible by ten, all nodes known and no fees in blocks 0 and 1, that is an equality: what was collected is paid or still due |
| `FeeSplit.WindowsDisjoint` | mining.go:2251-2275 | The walks of two key blocks back to the key block before them never meet, so no block's fees enter two tenths |
| `FeeSplit.WindowsCover` | mining.go:2251-2275 | Every block is in the walk of the next key block |
| `FeeSplit.WalkBack` | mining.go:2250-2275 | The loop adds up the fees from the parent back to the last key block, or until a node is unknown |
| `FeeSplit.SplitFees` | mining.go:2244-2311 | The exact amount, whatever votes are missing and nodes forgotten: six tenths of the votes' share of the block's own fees, three of its parent's if that is known, and for a key block one of everything back to the last key block or to the first node forgotten, each rounded down; nothing in the first two blocks |
| `FeeSplit.ScaledExact` | mining.go:2275-2283 | From stake validation on, the scaled amount r of fees f with v of t votes satisfies r*t <= f*v < (r+1)*t; before, it is f |
| `FeeSplit.PayoutExact` | mining.go:2244-2289 | No other amount than the one paid out is made up like that |
| `FeeSplit.NoOverflow` | mining.go:2276-2288 | The products fit into 64 bits while the chain's fees times the larger of six and the votes per block do |
| `FeeSplit.PayoutBelow` | mining.go:2276-2289 | Ten times what a block pays out is at most six of its own fees, three of its parent's and, for a key block only, one of everything since the last key block |
| `FeeSplit.PayoutAbove` | mining.go:2276-2289 | Ten times a payout falls short of the votes' share of six, three and one times the fees by less than 29, or 40 for a key block |
| `TxQueue.OrdersAreSound` | mining.go:133-226 | Both orders are strict weak orders that put votes before tickets and tickets before the rest |
| `TxQueue.OrdersMean` | mining.go:165-226 | By fee, one of two of a class comes no later if it has the higher fee per kilobyte, or the same and no lower priority; before that, the higher priority, or the same and no lower fee, and for votes and tickets no lower fee |
| `TxQueue.TxPriorityQueue.Push` | mining.go:84-108 | Pushing keeps the heap and adds exactly the item |
| `TxQueue.TxPriorityQueue.Pop` | mining.go:107-113 | The heap is kept and one item is taken out that, in either order, comes no later than any that is left |
| `TxQueue.TxPriorityQueue.SetLessFunc` | mining.go:120-123 | Changing the order restores the heap for the new order and keeps the items |
| `TxQueue.Heapify` | mining.go:120-123 | Any list becomes a heap with the same items |
| `TxQueue.RootIsFirst` | mining.go:91-96 | No item of a heap comes before its root |
| `Replay.SpendTransaction` | mining.go:779-793 | The loop marks a transaction's inputs spent and makes its outputs available |
| `Replay.SpendMeans` | mining.go:779-793 | After a transaction its spendable outputs are available, and of all others those that were and that it does not name |
| `Replay.InputsAre` | mining.go:1607-1618 | What a transaction spends is what its inputs name, without the first of a vote |
| `Replay.ReplayIsOrderly` | mining.go:1878-1915 | A list of transactions whose inputs are all there and unspent at their turn, on a view that has none of them, holds no transaction twice, spends nothing twice and has parents before children |
| `Replay.StaysSpent` | mining.go:779-793 | What a replayed transaction spent stays spent |
| `Replay.NoRepeats` | mining.go:1878-1915 | No transaction can be replayed twice, although it may be queued twice |
| `Drafts.PutOk` | mining.go:1743-1928 | Taking a transaction that passed the checks keeps what a draft block satisfies: it replays; its size is the header overhead plus the exact sizes without wrapping and below the limit; each transaction counts for its own signature operations and those of the scripts it redeems on the view it was put on, and all of them stay within the limit; tickets are within theirs; and its votes use distinct winning tickets |
| `Drafts.DraftDetermined` | mining.go:1917-1932 | The chosen transactions determine the whole draft: view, size, signature operations, tickets and winning tickets found |
| `Drafts.JudgeMeans` | mining.go:1749-1898 | A transaction within every limit, written out for tickets, revocations, size, signature operations and votes, goes into the block if its inputs and scripts pass and, by fee, it pays the minimum, is in the stake tree or leaves the block small, and before that fits into the high-priority section; it is put back exactly if it does not fit there; it is turned away in all other cases; and the order is by fee from the first that is last in that section or does not fit |
| `Greedy.RunKeeps` | mining.go:1723-1951 | The specification of the loop is a run: again and again an item is judged whose transaction has all it waits for in the block, that nothing open precedes in the order in use, and that was not decided on before unless it spends two outputs of one pool transaction. Every run leads to a sound draft of transactions that have an item |
| `Greedy.RunIsStory` | mining.go:1723-1951 | Turn by turn a run goes as written out: it begins with an empty block, each turn puts its transaction at the end of the block exactly if it is let in, and notes the first decision on it |
| `Greedy.StoryOnce` | mining.go:1723-1951 | With the same items no other stages go like that |
| `Greedy.OneBlock` | mining.go:1723-1951 | If of any two items one precedes the other and none spends twice from one pool transaction, there is one finished run, and so one block |
| `Greedy.DecidedAt` | mining.go:1743-1898 | Each first decision was made at one turn, with the transaction's own item, at a draft that held everything it waits for; it joined the block if and only if the limits, the fee rule and the checks, written out, let it, and was turned away if and only if they did not |
| `Greedy.DecisionsStand` | mining.go:1917-1932 | Decisions stand, and the block only grows |
| `Greedy.JoinedAreChosen` | mining.go:1917-1932 | What was taken at its first decision is in the block; whatever else is in it was turned away at first and spends twice from one pool transaction |
| `Greedy.FitsSoTaken` | mining.go:1937-1950 | In a finished run, a transaction that has everything it waits for in the block and is never turned away at a turn of its own is in the block |
| `Greedy.BetterFirst` | mining.go:1724-1728 | A transaction that waits for nothing, and that another comes later than by fee and by priority, is decided on before the other has a turn |
| `Greedy.NoneForgotten` | mining.go:1937-1950 | In a finished run, a transaction that was never decided on heads a chain of such transactions, each waiting for the next, that ends at one turned away or never set up |
| `Greedy.StuckOutside` | mining.go:1937-1950 | A transaction at the head of such a chain is not in the block, and waits for something that did not join it |
| `Selection.FirstMayCome` | mining.go:1724-1728 | An item that no queued item precedes may come next in a run: the queue holds every open transaction and nothing that still waits |
| `Selection.Release` | mining.go:1937-1950 | The transactions that waited for one that was taken wait for it no longer; those that wait for nothing more are queued, at most as often as they are listed, and nothing else is |
| `Selection.Consider` | mining.go:1724-1950 | One turn of the loop is one turn of a run: the item taken off is one that may come, what is done with it is what a run does, queue and graph keep up, and the pair (not yet by fee, queue plus waiting entries) decreases |
| `Selection.Choose` | mining.go:1723-1951 | The loop ends, and its block is that of a finished run, which goes turn by turn as the limits, the fee rule and the checks have it |
| `Selection.EntriesWithout` | mining.go:1742-1747 | Taking a list of waiting transactions out reduces the entries by its length |
| `Template.SetUp` | mining.go:1541-1695 | Exactly the eligible candidates that could be looked up get an item; those whose inputs are all in the chain or the pool, and those abandoned only after they were listed with a parent, are set up; one that is set up waits for exactly the transactions it lacked outputs of until then, is on the list of each, and is queued if and only if there are none |
| `Template.SetUpOne` | mining.go:1607-1673 | The same for one candidate, including one abandoned at an input that is nowhere to be found, which stays on lists with an item of no fee and no priority |
| `Template.Parents` | mining.go:1608-1650 | The transactions to wait for are those of the inputs not available before the first that is not in the pool either, once for each input |
| `Template.WantedAwaits` | mining.go:1608-1650 | A candidate that was not abandoned waits for exactly the transactions it lacks outputs of |
| `Template.ChooseTransactions` | mining.go:1489-1951 | From the pool to the end of the loop: the chosen transactions are eligible candidates; they replay in order on the chain's view with nothing twice and nothing spent twice, stay within every limit, and hold at most as many votes as there are winning tickets; the block comes about turn by turn, each turn giving the block the transaction exactly if the limits, the fee rule and the checks let it, until no candidate is open; so every wanted candidate was decided on at its turn or is stuck |
| `Template.ChosenOrderly` | mining.go:1723-1951 | A sound draft has parents before children, no transaction twice and no output spent twice |
| `Template.ParentsFirst` | mining.go:1607-1673 | A chosen transaction comes after every transaction it lacked an output of |
| `Template.VotesBound` | mining.go:1815-1836 | The votes of a block are at most as many as the winning tickets |
| `ParentSort.SortParentsByVotes` | mining.go:285-362 | The result is made from some sorted list of the blocks that have enough votes, with the top block moved when the code moves it |
| `ParentSort.RankedByVotes` | mining.go:286-330 | The result is a permutation of the blocks for which more than half of the tickets voted yes or more than half voted no, most votes first |
| `ParentSort.Sort` | mining.go:324-325 | Sorting permutes and puts the most votes first |
| `ParentSort.CountVotes` | mining.go:299-308 | The two 16-bit counters |
| `ParentSort.NeverMoves` | mining.go:335-360 | With two or more tickets per block the top block is never moved |
| `ParentSort.TopStaysExactly` | mining.go:331-360 | For given blocks and votes, every sort leaves a top block that ties in the lead if and only if it is not eligible, or some eligible block has more votes, or no other eligible block has as many, or the lead is one vote |
| `ParentSort.TopMayLoseTie` | mining.go:331-360 | With any larger number there are votes and a sort by which it does not |
| `SyncManager.FindNextHeaderCheckpoint` | blockmanager.go:531-558 | The least checkpoint above the height, or none exactly when checkpoints are off or none is above it |
| `SyncManager.SuccessiveRise` | blockmanager.go:1419-1421 | Checkpoints aimed at one after the other rise strictly |
| `SyncManager.Receive` | blockmanager.go:1522-1575 | Headers are listed at the next heights up to the first that does not connect, the checkpoint's height with another hash, the checkpoint itself, or the last of them, and which of the four it was is told; the list stays a hash-linked run of consecutive heights |
| `SyncManager.ReceivedOnce` | blockmanager.go:1522-1575 | For given headers exactly one of those four ends is possible, at one place |
| `SyncManager.ToFetchGrows` | blockmanager.go:1538-1548 | What is to be fetched grows by exactly the headers appended, unless the cursor is on a header that was taken off the list |
| `SyncManager.HeightsRun` | blockmanager.go:1538-1548 | In a linked list heights rise by one from header to header |
| `SyncManager.CollectBlocks` | blockmanager.go:1460-1496 | The blocks asked for are exactly the unknown ones of the headers looked at; the walk stops early only with the header that fills the message; the cursor ends after the last header that could be looked up |
| `SyncManager.FetchHeaderBlocks` | blockmanager.go:1453-1499 | They are recorded with the manager and with the sync peer, which owes them, and nothing else changes but the cursor |
| `SyncManager.FetchedCovers` | blockmanager.go:1453-1499 | After a fetch, every header from the cursor on whose block is not known has its block on the sync peer's record or is still to be fetched |
| `SyncManager.FetchedOnly` | blockmanager.go:1453-1499 | No block is asked for that is known or not listed, and no more than 50000 |
| `SyncManager.LimitMap` | blockmanager.go:1824-1837 | At most one entry is dropped, and only when the map would overflow |
| `SyncManager.RequestQueued` | blockmanager.go:1775-1815 | Of the items worked through, all that are not on record are asked for and nothing else; they go on both records, where the manager's has room; the queue is worked through to its end unless a full message comes before |
| `SyncManager.NothingIgnored` | blockmanager.go:1775-1815 | So every queued item stays queued, is asked for now, or was requested already |
| `SyncManager.GoneHeld` | blockmanager.go:739-749 | When a peer leaves, what stays on record as requested is requested from a peer that is still connected |
| `SyncManager.DeliveredHeld` | blockmanager.go:1107-1108 | The same when a peer delivers |
| `SyncManager.RequestedHeld` | blockmanager.go:1780-1812 | The same when more is requested and entries are dropped |
| `SyncManager.RequestsKept` | blockmanager.go:1780-1812 | Every block on record stays owed by a connected peer, but for those recorded for a message that did not go out |
| `SyncManager.StartSync` | blockmanager.go:564-667 | Without a sync peer, exactly the candidates that are behind by key height, or at the same by height, go; if any are left the record of blocks is cleared, and the last of them becomes the sync peer if the request can be sent, with headers first exactly below the next checkpoint; nothing else changes |
| `SyncManager.SyncPeerFound` | blockmanager.go:564-667 | The same of the function it is proved against |
| `SyncManager.PassCheckpoint` | blockmanager.go:1419-1441 | The next checkpoint is the least above the last and nothing else changes; without one headers-first mode ends and the list is emptied |
| `SyncManager.TakeHeaders` | blockmanager.go:1514-1602 | The end of the reception decides: more is asked for when all headers were accepted, blocks are fetched when the checkpoint was reached, and otherwise nothing is; the list is the old one with the accepted headers at the next heights, without its front when a fetch is started, and then ends exactly at the checkpoint's height and hash |
| `SyncManager.AfterBlock` | blockmanager.go:1398-1442 | Outside headers-first mode nothing changes; the checkpoint's block makes the next checkpoint the aim; another block has more fetched if headers are left and fewer than ten blocks are under way |
| `SyncManager.TakenOffKept` | blockmanager.go:1054-1108 | Taking a welcome block off both records, counting a duplicate and taking off the front header keeps the invariant; the peer owes the block no longer and every other debt stays |
| `SyncManager.TakenOffMeans` | blockmanager.go:1054-1108 | A welcome block goes off both records; its count rises by one exactly if it was not on the peer's; the header list loses its front exactly if that is the block's and not the checkpoint's, and the cursor moves along, or stays on the front; nothing else changes |
| `SyncManager.RestKept` | blockmanager.go:1085-1103 | The headers still to fetch are the same when the front is taken off if and only if the cursor is not on it or nothing comes after it |
| `SyncManager.ListShrinks` | blockmanager.go:1085-1103 | In headers-first mode, after the first n listed blocks have come in their order the list is what is left of it, and the checkpoint is still the aim |
| `SyncManager.CheckpointPassed` | blockmanager.go:1054-1442 | When all listed blocks up to the checkpoint have come in their order, with other messages in between, the least checkpoint above is the aim, or there is none and headers-first mode is over |
| `SyncManager.ThroughExactly` | blockmanager.go:2655-2690 | All that another component wants is gone through if and only if everything sought can be looked up and fits into one message |
| `SyncManager.OwedExactly` | blockmanager.go:2652-2730 | If every block on record was owed by a peer, it still is after such a call if and only if the call succeeds or what it recorded is owed by others |
| `SyncManager.BlockManager.constructor` | blockmanager.go:2936-2944 | The manager starts aiming at the least checkpoint above the chain, with the invariant |
| `SyncManager.BlockManager.HandleNewPeer` | blockmanager.go:697-720 | The invariant of all runs is kept: what is on record as requested is on the record of a connected peer; every block on record is owed by one unless it was recorded for a message that did not go out; what a peer owes is on its record; headers-first mode has a checkpoint and a connected sync peer; headers are linked; checkpoints follow each other with none left out. The peer joins, as a candidate if it is a full node, and then a sync peer is looked for; nothing else changes |
| `SyncManager.BlockManager.HandleDonePeer` | blockmanager.go:726-762 | The invariant is kept; the peer and what was requested from it are off the record and it is no candidate; if it was the sync peer another is looked for, after the list was cut down to the best block if headers came first; nothing else changes |
| `SyncManager.BlockManager.HandleTx` | blockmanager.go:765-822 | The invariant is kept; the request ends; a failed transaction is remembered as rejected, at the cost of at most one when there are too many |
| `SyncManager.BlockManager.HandleBlock` | blockmanager.go:1054-1442 | The invariant is kept; a block is unrequested exactly when the peer was not asked for it and it was never requested or was sent in duplicate more than three times, so never if the peer owes it; any other block goes off both records, and the list and the count change as `TakenOffMeans` says; no other debt shrinks; the checkpoint's block, once processed, makes the least checkpoint above it the aim or ends headers-first mode, and other blocks have more fetched when fewer than ten are under way |
| `SyncManager.BlockManager.HandleHeaders` | blockmanager.go:1502-1602 | The invariant is kept; headers outside headers-first mode and empty messages change nothing; otherwise the message ends in exactly one of the four ways, with the list, the cursor and any fetch that go with it; fetching begins with the list ending at the checkpoint |
| `SyncManager.BlockManager.HandleInv` | blockmanager.go:1642-1819 | The invariant is kept; announcements count from the sync peer or once current; outside headers-first mode exactly the announced items that are unknown and not rejected are queued; then the queue is worked through, what is asked for is owed, and nothing else changes |
| `SyncManager.BlockManager.RequestFromPeer` | blockmanager.go:2652-2730 | The invariant is kept; the call succeeds if and only if everything sought can be looked up and fits into one message; then exactly that is recorded and owed; on failure what came before is recorded and not owed |
| `Relay.QueueHandler` | rpcwebsocket.go:151-193 | On any schedule of arrivals, reads, closing and quitting, what was emitted followed by what is queued is what was received, and no more is queued than has to be; items skip the queue only when it is empty and the next item is its head |
| `Relay.NotificationsInOrder` | rpcwebsocket.go:1463-1512 | In every interleaving, notifications handed over followed by those pending are those received; at most one is unacknowledged; not waiting means nothing pending; while the client is there, written, under way and pending together are what came, in order |
| `Relay.AckHasRoom` | rpcwebsocket.go:1534-1588 | No goroutine ever waits for room on the one-slot acknowledgement channel |
| `Relay.RunKeeps` | rpcwebsocket.go:1463-1588 | The invariant behind both holds in every state of every run |
| `PeerTable.PeerState.constructor` | server.go:107-122 | The tables start empty with the invariant: each group's counter is the number of its listed outbound and persistent peers plus those that leaked, and there are at most the allowed number of peers |
| `PeerTable.PeerState.HandleAddPeer` | server.go:1290-1345 | The invariant is kept; a peer is listed exactly when the server is up, its address is readable and not banned, and there is room; a ban that is over is forgotten |
| `PeerTable.PeerState.HandleDonePeer` | server.go:1351-1384 | The invariant is kept; a peer on no list changes nothing, so none is counted out twice; a leak is exactly an outbound peer done before its version was known |
| `PeerTable.PeerState.DisconnectPeer` | server.go:1628-1643 | One peer that fits is taken off its list and counted out if outbound, or none fits |
| `PeerTable.PeerState.RemoveNode` | server.go:1561-1573 | One persistent peer that fits is removed and counted out and nothing else changes, or none fits and nothing does |
| `PeerTable.PeerState.DisconnectNode` | server.go:1588-1616 | If an inbound peer fits, one that does goes and nothing else changes; otherwise all outbound peers that fit go and no others |
| `PeerTable.EnterOk` | server.go:1330-1341 | Listing a new peer keeps counters and limit |
| `PeerTable.LeaveOk` | server.go:1360-1369 | Taking a listed peer off keeps the counters, up to a leak when it is not counted out |
| `PeerTable.ExactUnlessLeaked` | server.go:1351-1384 | The counters are exact if and only if nothing leaked |
| `PeerTable.DoneKeepsExact` | server.go:1360-1363 | An outbound peer that is done leaves exact counters exact if and only if its version is known |

## Left out

- Hashing, signatures, scripts, Merkle trees, the block and output databases, the
  ticket lottery and subsidies: opaque functions or values.
- Input checking is assumed to accept only inputs that are in the view and
  unspent; the memory pool is assumed to hold transactions under their hash, each
  spending something and nothing twice, and none from itself however indirectly;
  a lookup in the chain is assumed only to add to a view, to agree with the chain,
  to find all of a transaction's inputs there when it succeeds, and never to know
  a pool transaction.
- Pruning of chosen transactions after the selection loop, the coinbases and the
  rest of `NewBlockTemplate`; template caching and copying.
- The quality score that makes a drawn address more or less likely to be
  accepted: each draw comes with its verdict.
- Times are whole seconds; fees per kilobyte and priorities are reals, so the
  not-a-number value of a transaction of size zero does not occur.
- AddrManager.Manager.GetAddress: the draws are a finite sequence; that some draw
  is accepted in the end is not modelled.
- AddrStore.RoundTrip: that address strings can be parsed back is assumed of the
  parser.
- ParentSort.RankedByVotes: assumes fewer than 65536 votes for each block, the
  range of the program's counters; a block has at most as many votes as tickets,
  which are counted in 16 bits too.
- Relay.RunKeeps: closing the quit channel and setting the disconnected flag are
  one step; draining the notification channel on exit is not modelled.
- Locator.ForkFound: speaks of the locator of a main-chain tip; for side-chain
  blocks see Locator.SideChainLocator.
- Selection.Choose: a transaction that spends several outputs of one pool
  transaction may have a turn for each of them; how many it has is left open.
- In the block manager, peers are records in a map instead of shared objects, and
  the manager's fields are one record, so aliasing of peers is not captured. A
  peer is assumed to send no message after it is done. The getblocks and
  getheaders messages are not recorded, only whether sending them fails where
  that matters.
- The rest of the node: configuration, logging, the remote procedure calls and
  their marshalling, the miner's search, the wire encoding.
