# eth-parser, modelled in Dafny

A model of the core of `eth-parser`, a small Ethereum transaction
observer. A client subscribes addresses. A background loop walks the chain
block by block and records, for every subscribed address, each transaction
in which that address is sender or recipient. The client reads those
histories and the height of the last parsed block.

The model has five modules:

- `Address` (`address.dfy`): the canonical form of an address. Every store
  operation lowercases addresses, so two spellings that differ only in
  letter case name the same account.
- `Ledger` (`ledger.dfy`): a transaction and the per-address histories, as
  values.
  - `Commit` is the effect of one block, computed the way the store's loop
    computes it: transaction by transaction, sender check before recipient
    check.
  - `Relevant` describes declaratively what one block adds to one address.
  - `CommitAt` proves that the two agree.
- `Storage` (`storage.dfy`): the class `MemStorage`. Its fields are the
  current height and the map from subscribed address to history, updated
  in place by its methods.
- `Parser` (`parser.dfy`): the class `EthParser`, which holds:
  - its three query pass-throughs;
  - the block-advancement loop `Start`, with its inner catch-up loop as
    `CatchUp`.

  The chain node is an oracle. Its answers to "latest block number" and
  "transactions of block n" are two finite scripts, consumed in call order.
- `Scenarios` (`scenarios.dfy`): client runs whose outcomes follow from the
  contracts above:
  - case-insensitive subscription;
  - a saved transfer read back;
  - no backfill for a late subscriber;
  - a fetch that fails twice and is retried;
  - no fetch past the latest block number.

The transaction record of `main.go:34-53` is the datatype
`Ledger.Transaction`. It keeps the hash, sender, recipient and value, and
holds the remaining fields as one map of strings.

A failed request for the latest block number leaves `latestBlock` at 0,
the zero value of the named result in `main.go:214-237`. `LatestValue` and
`LastHead` model this. The loop then has nothing to fetch and asks again.

## Model

| member | source | states |
|---|---|---|
| Address.Lower | main.go:75 | an upper-case ASCII letter becomes its lower-case letter, any other character is kept, and the result is never upper case |
| Address.ToLower | main.go:75 | the canonical form used at main.go:75, 78, 89 and 105 has the length of the address. Its content is given by `ToLowerAt` |
| Address.ToLowerAt | main.go:75 | each character of an address's canonical form is the lowercase of the character at the same position, and the length is kept |
| Address.ToLowerNormalized | main.go:75 | a canonical form contains no upper-case letter, so every key the store inserts is canonical |
| Address.NormalizedIsFixed | main.go:78 | lowercasing a string that has no upper-case letter returns it unchanged |
| Address.ToLowerIdempotent | main.go:75-78 | lowercasing twice equals lowercasing once, so the key inserted on line 78 is the key looked up on line 76 |
| Address.ToLowerIffEqualFold | main.go:102-106 | two addresses share a canonical form if and only if they are equal letter by letter up to case |
| Ledger.Multiplicity | main.go:88-98 | a transaction is recorded for an address at most twice, and at least once exactly when the address is its sender or recipient |
| Ledger.Hits | main.go:89-97 | one transaction adds to an address's history only copies of itself, as many as its multiplicity |
| Ledger.Relevant | main.go:88-98 | a block adds at most two entries per transaction to a history |
| Ledger.Lookup | main.go:105 | reading an address that was never subscribed gives the empty history |
| Ledger.AppendIfPresent | main.go:90-96 | one guarded append: the key set is kept, a subscribed key's history gains the transaction at its end, every other history is unchanged, and an absent key is not added |
| Ledger.CommitTx | main.go:89-97 | one transaction never adds or removes a subscribed address |
| Ledger.Commit | main.go:88-98 | saving a block never adds or removes a subscribed address |
| Ledger.CommitAll | main.go:152-160 | saving a run of blocks never adds or removes a subscribed address |
| Ledger.CommitAt | main.go:88-98 | after a block is saved, each subscribed history is its old contents followed by exactly the block's transactions that touch that address, in block order |
| Ledger.CommitAllAt | main.go:152-160 | after several blocks are saved in turn, each subscribed history grows by what their concatenation adds |
| Ledger.RelevantAppend | main.go:88-98 | what two consecutive runs of transactions add is what the first adds, followed by what the second adds |
| Ledger.RelevantTouches | main.go:90-97 | every transaction a block adds to an address's history has that address as sender or recipient |
| Ledger.HitsCount | main.go:89-97 | one transaction contributes one occurrence of itself per side (sender, recipient) naming the address, and nothing else |
| Ledger.RelevantCount | main.go:88-98 | a transaction occurs in what a block adds to an address as many times as it occurs in the block, once for each of its sides that names the address |
| Ledger.RelevantMembership | main.go:88-98 | a transaction is added to an address's history if and only if it is in the block and touches the address |
| Ledger.SelfTransferRecordedTwice | main.go:90-97 | a transfer from a subscribed address to itself is appended to its history twice |
| Ledger.CommitKeepsWellIndexed | main.go:85-100 | saving a block keeps the keys canonical and every history entry touching its key |
| Ledger.LookupIgnoresCase | main.go:102-106 | two spellings of an address equal up to case read the same history |
| Storage.MemStorage.constructor | main.go:62-64 | a new store is at height 0 with no subscribed address |
| Storage.MemStorage.GetCurrentBlock | main.go:66-70 | returns the height of the last saved block and changes nothing |
| Storage.MemStorage.AddTargetAddress | main.go:72-83 | true if and only if the canonical form was absent, in which case it is added with an empty history. When false the map is unchanged, so an existing history is not reset. The height is untouched and the invariant is kept |
| Storage.MemStorage.SaveTransactions | main.go:85-100 | the new map is `Commit` of the old one over the batch: same keys, and each history extended by exactly the block's transactions touching it, old entries kept as a prefix. The height becomes the given block number, whatever the batch holds |
| Storage.MemStorage.GetTransactions | main.go:102-106 | returns the history of the address's canonical form, or empty if it is not subscribed. Every returned transaction has the address as sender or recipient |
| Parser.EthParser.constructor | main.go:114-120 | the parser keeps its endpoint and owns a fresh, empty store at height 0 |
| Parser.EthParser.GetCurrentBlock | main.go:123-125 | the store's height |
| Parser.EthParser.Subscribe | main.go:128-130 | the store's subscription outcome and new state |
| Parser.EthParser.GetTransactions | main.go:133-135 | the store's history for the address, read case-insensitively |
| Parser.LatestValue | main.go:161 | the value `latestBlock` takes from a head answer: the reported height, or 0 when the request failed (the zero value of the named result at main.go:214-237) |
| Parser.HighestHead | main.go:161 | the highest head the loop can have seen is never negative |
| Parser.HighestHeadBounds | main.go:161 | no head answer exceeds the highest head |
| Parser.HighestHeadAttained | main.go:161 | the highest head is 0 or the value of one of the answers |
| Parser.LastHeadBelowHighest | main.go:161 | the value `latestBlock` holds after some of the head answers never exceeds the highest of all of them |
| Parser.HeadStep | main.go:161 | one more head answer sets `latestBlock` to its value |
| Parser.Successes | main.go:153-157 | at most one block is obtained per fetch answer |
| Parser.SuccessesStep | main.go:153-157 | a failed fetch obtains no block, and a successful one obtains exactly its own |
| Parser.Requests | main.go:152-158 | one block request is made per fetch answer |
| Parser.RequestsStep | main.go:152-158 | the next request is for the block after the last one obtained |
| Parser.RequestsAt | main.go:152-158 | request i is for block `initial + 1 + (successes among the first i answers)`, so a failure is retried at the same height and a success moves to the next |
| Parser.CommitAllStep | main.go:157 | saving one more block after a run of blocks equals saving the longer run |
| Parser.ProgressMeans | main.go:152-160 | the loop's progress record spelled out. Request i is for the block after those obtained by the first i answers. Exactly the successful fetches are saved, at consecutive heights from the starting height plus one. The height is the starting height plus the number of saves. The histories are the old ones with every saved block committed in turn |
| Parser.FailedFetchKeepsProgress | main.go:153-156 | a failed fetch is recorded as a request for the next height and changes neither the height nor the store |
| Parser.SavedFetchKeepsProgress | main.go:153-158 | a successful fetch is saved at exactly the next height and the height goes up by one |
| Parser.SavesKeepSchedule | main.go:152-160 | a catch-up pass saves blocks only up to the current `latestBlock`, so each new save lies at or below the head value in force when it was fetched, and the trace of head requests stays consistent |
| Parser.HeadKeepsSchedule | main.go:161 | asking for the head once the height has reached the current `latestBlock` keeps the schedule |
| Parser.ScheduleBelowHighestHead | main.go:152-161 | as a consequence, no block is saved above the highest head answered |
| Parser.EthParser.CatchUp | main.go:152-160 | while below `latestBlock`, fetches and saves consecutive blocks, and never saves above `latestBlock`. Every answer it consumes is a success that is saved, except the last one of a failed pass. It ends in one of three ways. Caught up: the height has reached `latestBlock`, and the last answer it consumed, if any, was a success. Failed fetch: the last answer was a failure and the height is still below `latestBlock`. Out of answers: the script is exhausted while still below |
| Parser.EthParser.Start | main.go:138-163 | requests and saves follow the progress record. Saves and head requests follow `Schedule`: saves never exceed the `latestBlock` in force, and the head is asked only when caught up. The last fetch answer consumed is a failure only if the fetch script ran out while below `latestBlock`. `latestBlock` ends as the last head answer. It stops only for want of an answer. Details below the table |
| Scenarios.SubscribeIgnoresCase | main.go:72-83 | subscribing "0xABC" and then "0xabc" answers true, then false |
| Scenarios.EndToEnd | main.go:85-106 | after 0xAAA is subscribed and a transfer from 0xAAA to 0xBBB is saved in block 1, 0xaaa reads that transfer, unsubscribed 0xbbb reads nothing, and the height is 1 |
| Scenarios.LateSubscription | main.go:72-100 | an address subscribed after a block that touched it starts with an empty history (no backfill) |
| Scenarios.RetryAgainstSameHead | main.go:152-161 | from height 0, with head 10 then a failed head request, and fetch answers success, failure, success: blocks 1, 2, 2 are requested and blocks 1 and 2 saved. The failure is retried before the head is asked again |
| Scenarios.NoFetchPastHead | main.go:152-161 | from height 0, with head 1 and fetch answers success then failure: only block 1 is requested and saved, and the height ends at 1. No block above `latestBlock` is fetched |
| Scenarios.Resumption | main.go:138-163 | at height 5 with head 6, two failed fetches and then a success: block 6 is requested three times and saved once, the height ends at 6, and block 7 is never requested |

`Parser.EthParser.Start` states the following:

- Requests, saves, the final height and the final histories satisfy the
  loop's progress record, which `ProgressMeans` spells out:
  - request i is for the block after those saved before it;
  - exactly the successful fetches are saved, at consecutive heights;
  - the height and histories are what those saves make them.
- The ghost results trace the interleaving, and `Schedule` constrains it:
  - each block is saved at or below the `latestBlock` in force when it was
    fetched;
  - a head request is made only once the height has reached the
    `latestBlock` in force, so a failed fetch is retried against the same
    `latestBlock`;
  - head request j comes before save i exactly when the height was then
    below that save.
- A failed fetch is always followed by another fetch. So the last fetch
  answer consumed is a failure only when the fetch script ran out while the
  height was below `latestBlock`.
- `latestBlock` ends as the last head answer, or 0 if there was none.
- The loop stops only when it needs an answer that the scripts do not
  hold.

## Left out

- HTTP server and JSON-RPC transport (`main.go:165-238` and the handlers
  after them): request encoding, decoding and status codes are not
  modelled. The two chain queries are replaced by the oracle scripts of
  `Start`.
- The height passed to the block fetch is recorded in `asked` but does not
  select the answer: the script gives the next answer in call order.
- Parsing of the hexadecimal head number (`strconv.ParseInt`): a parse
  failure is one of the failure answers, `HeadFailed`.
- Locking (`sync.RWMutex`) and concurrency: each store operation is one
  atomic step. Facade calls interleaving with a running `Start` are not
  modelled.
- Sleeping, back-off timing and console output: the back-off has no effect
  on state.
- Parser.EthParser.Start: does not model the infinite loop. It returns when
  the next answer it needs is not in its scripts, so it describes every
  finite prefix of a run.
- Address.ToLower: lowercases ASCII letters only, not full Unicode case
  mapping. Ethereum addresses are ASCII hexadecimal.
- Reference identity of transactions (Go stores `*Transaction`): histories hold transaction values, so
  aliasing between two histories that share the same transaction is not
  modelled.
- Nil entries in a block's transaction list: a decoded `null` in the
  transactions array would make the dereference at main.go:89 panic and
  end the loop. The model's blocks hold transaction values, so every batch
  is assumed to have no nil entry.
- The distinction between a nil slice and an empty slice: both are the
  empty sequence.
- The transaction's fields other than hash, sender, recipient and value:
  they are kept as one opaque map and never interpreted.
- Storage.MemStorage.SaveTransactions: heights are unbounded integers.
  64-bit overflow of `currentBlock` is not modelled.
- The `StorageProvider` interface: the parser is modelled over the one
  implementation, `MemStorage`.
