# Mining pool: payouts, block assembly and difficulty

A Dafny model of the parts of the pool that decide who is paid, what block is submitted and what a
share is worth. `dafny verify dfyconfig.toml` checks all of it.

**Payouts.** `Protocol` is a transition system: one FIFO share writer, one periodic payer, the Redis
store they share, and a wallet that may send a batch, refuse it, or never answer, whether or not it
sent. A step is one Redis command or one call to the wallet or the node, so a crash can fall between
any two of them, and writer and payer interleave freely. Fields that no step reads (`wallet`,
`awards`, `credits`, `hist`, `tally`, `seals`, `dropped`, `found`, `plan`, `sent`) keep history. `Invariant` states
what every step keeps, `Safety` proves it, `Guarantees` says what it means for blocks, shares and
miners, and `Awards` which shares every reward was divided by. `Completion` shows that runs get
somewhere: any pending block can be settled.

The protocol's writer is handed shares that the text of the keys can carry: names and hashes without
colons, heights below 2^63, accepted blocks that come with a valid share (`Protocol.Enabled`, case
`WBegin`). What happens otherwise is stated on the text itself. `BlockText` is
the text of a pending block and `LogText` that of a logged share. `Storage.DB` and
`Payer.PaymentManager` are the store, with its keys as text, and the payer, with the program's own
loops. A payout cycle is specified on whatever the keys hold, in terms of the answers of wallet and
node; on keys as the writer leaves them it is proved, call by call, to be a path of the transition
system, so every guarantee applies to it. `Cycles` says what such a cycle does in terms of the replies
themselves: which blocks it moves, by how much each miner's account grows and what it sends. `Rates`
is the law of pps mode over whole runs. `TextRuns` and `Repayments` follow histories of cycles over
arbitrary members: how often a block is settled, and how often its reward is divided.

**CryptoNote.** `Varint`, `BlockBlob`, `TreeHashing` and `HashingBlob` hold the block parser against a
block grammar, the in-place tree hash against the recursive one, and the hashing blob against the
nonce; `CryptonoteEngine` carries that to the jobs. Keccak and RandomX are arbitrary functions.

**Merkle branches.** `Merkle` compares the precomputed branch, the full tree and the second
implementation of the equihash engine, for an arbitrary hash.

**Coinbase.** `Packing`, `Coinbases` and `Generation` have the printers of the program and readers
written as their specification.

**Alephium.** `Alephium` has the binary miner protocol with its documented encoding.

**Difficulty.** `Pow`, `VarDiffs` and `ShareCredit` are targets, retargeting and share credit.

`Prelude`, `ByteStrings` and `Coins` hold what several of these share: sums over maps, bytes and
little-endian numbers, base units.

Amounts are whole base units and difficulties, percentages and coins are exact reals: the claims are
about the arithmetic that the float64 code stands for. Balances are stored in the program as coins;
`Coins.RoundTrip` shows that this loses nothing in exact arithmetic, so the store keeps base units.

Five places where the code does not do what one would expect are kept, with a concrete input and
the exact condition:

- A miner whose name has a colon. The record of a block it finds is read back under the part of the
  name before the colon, and the text that a payout moves is then no member, so the block stays
  pending and can be settled again in the next cycle (`TextRuns.SettledAtMostOnce` is the exact
  condition for settling, be it as confirmed or as orphaned). What is paid depends on the mode (`Repayments.PaidAtMostOnce`). In solo mode the part
  before the colon is paid every time (`TextRuns.PaidTwice` at the name "a:b",
  `TextRuns.PaidEveryCycle`) unless it is empty. In pplns mode with a window the reward is divided
  exactly if the log holds work up to the mark that is read from the rest of the name, and then again
  as long as it does. In prop mode, and in pplns mode without a window, it is divided at most once, since that
  deletes the round, as long as no other block is accepted at the same height. Of the miner's logged
  shares the part between the first two colons is taken for the difficulty: a share of "a:100" counts
  100 for "a" whatever was mined, and one of "a:b" is skipped, after which the cursor passes it
  (`LogText.ColonNames`; `LogText.ReadsBack` is the exact condition).
- Two blocks accepted at one height. The second renames its round over the first one's, and settling
  either deletes it (`Completion.RoundOverwritten`; `Guarantees.PendingRoundExact` and
  `Guarantees.PropPaysItsRound` say when a block's round is its own). No block is paid twice.
- A block blob whose extra length, read as an int, leads the parser backwards
  (`HashingBlob.BackwardBlob`; `BlockBlob.ParsesExactly`).
- A retarget outside X2 mode, which divides nanoseconds by seconds and has no upper bound when shares
  are slow (`VarDiffs.NanosecondsOverSeconds`; `VarDiffs.RangeLeftOnlyWhenSlow`).
- A masternode output, written with a big-endian amount and no script
  (`Generation.MasternodeScriptLost` for one satoshi and a one-byte script; `Coinbases.OutputsStandard`
  and `Generation.CoinbaseParses`).

## Model

| member | source | states |
|---|---|---|
| Guarantees.PaidExactlyOnce | payments/payer.go:209-245 | In every reachable state, also with several blocks at one height, no two broadcasts settle a common block or share, and what the wallet sent each miner is its recorded payouts plus at most the one intent that was sent and not applied |
| Guarantees.NeverOverpaid | payments/payer.go:458-548 | In every reachable state what was sent to a miner plus what it carries over is exactly what its confirmed blocks and credited shares earned, through every crash; what each block earns whom is `Awards`, what shares earn is `Rates.CreditedAtRate` |
| Rates.CreditedAtRate | payments/payer.go:330-360 | In every reachable state in pps mode a miner's balance and payouts differ from its logged work up to the cursor times rate times magnitude by at most half a unit for each committed range it had shares in |
| Rates.RangeCreditedAtRate | payments/payer.go:349-360 | Each commit credits every miner its work logged between the old and the new cursor times rate times magnitude, rounded to the nearest unit |
| Guarantees.AmbiguousIntentHalts | payments/payer.go:232-237 | Over any run from a leftover intent without txid, the only further broadcast is the one already on its way, and balances, payouts and settled blocks stay put |
| Guarantees.StampedIntentResumes | payments/payer.go:226-231 | A crash after the stamp is completed by the next run from the intent alone, with no second broadcast and all its blocks moved |
| Guarantees.LedgerBalances | storage/redis.go:281-315 | Each miner's balance plus payouts is the sum of its parts of the confirmed blocks, each counted once; orphaned blocks add nothing |
| Guarantees.TotalsConserved | payments/payer.go:110-124 | All balances plus all payouts are at most the confirmed rewards and fall short by less than one unit per part |
| Guarantees.BlocksPartitioned | storage/redis.go:295-300 | In every reachable state each recorded block, told apart by its mark, is in exactly one of pending, confirmed and orphaned |
| Guarantees.SharesCreditedOnce | payments/payer.go:326-386 | In pps mode the credited difficulty of each miner is exactly its logged shares up to the cursor, and every later share is still in the log |
| Guarantees.NumberedShareNotSkipped | storage/redis.go:100-104 | A share that has its number but is not logged yet lies beyond the cursor, beyond the intent, and beyond the range that the payer holds at any point of its run |
| Guarantees.PendingRoundExact | storage/redis.go:140-157 | A pending block's own share closed exactly one round; while that round's key is neither renamed over nor deleted, as when no other round was sealed at its height, it holds the per-miner sums of exactly the valid shares after the previous seal up to that share; a key that is there otherwise is a later round's |
| Guarantees.OwnSeal | storage/redis.go:140-150 | No two seals end with the share of one block |
| Guarantees.PropPaysItsRound | payments/payer.go:101-107 | Attributing a pending block's reward in prop mode splits it over exactly that round while it is there, else over the later round that replaced it, else over nothing |
| Awards.AwardPaysItsRound | payments/payer.go:101-124 | In prop mode, and in pplns mode without a window, every reward ever committed was split over exactly the shares of a round sealed at its block's height, its own unless a later one was sealed there |
| Awards.AwardPaysItsWindow | payments/payer.go:85-100 | In pplns mode every reward ever committed was split over the full history's window at the block's mark if that window lay in the newest cap shares when the reward was divided, and always over the window in what the log then held |
| Awards.StepKeepsEarned | payments/payer.go:78-124 | Every step keeps each committed, planned or running reward split by its round or window, whatever is mined meanwhile |
| Guarantees.RoundsConserveWork | storage/redis.go:111-112 | All sealed rounds and the open one add up to all valid share work of each miner, and there are round keys for exactly the rounds neither renamed over nor deleted, each with the totals of its own part |
| Guarantees.PplnsReadsFullWindow | storage/redis.go:94-110 | The rank-capped log gives a pending block the window of the full share history whenever that window lies in the newest cap entries |
| Guarantees.PplnsPaysItsWindow | payments/payer.go:85-100 | Whenever that holds, attributing a reward in pplns mode splits it over that window of the full history |
| Guarantees.PplnsWindowFixed | storage/redis.go:399-430 | Whatever is mined in any later run, a found block's window stays what it was |
| Safety.StepKeepsInv | storage/redis.go:78-170 | Every single command, call, reply, crash and operator action keeps the whole invariant |
| Safety.ReachableInv | payments/payer.go:126-134 | Every state of every run from the empty store satisfies it |
| Completion.PayoutCompletes | payments/payer.go:301-324 | In solo mode, for every named finder without a colon, there is a run from the empty store that records its block, pays it the whole reward and leaves nothing pending |
| Completion.AnyBlockSettles | payments/payer.go:239-386 | In every mode, from every reachable state with an idle payer, a quiet network and no unstamped intent, there is a run that settles any given pending block, divides its reward as attributed and leaves nobody owed the minimum payment |
| Completion.RoundOverwritten | storage/redis.go:150-150 | With two blocks at one height the first one's round is lost, and prop mode splits both rewards over the second's share |
| Shares.CappedWindow | storage/redis.go:105-110 | A log that dropped its oldest entries selects the same window if and only if the full window starts in what was kept (or is empty) |
| Shares.WindowIgnoresLaterShares | storage/redis.go:399-407 | Shares above the mark never change a window |
| Shares.TotalsAreMinerWork | storage/redis.go:412-424 | The accumulated map holds exactly the miners that occur, each with its own summed difficulty |
| Ledger.SplitConserves | payments/payer.go:110-124 | A split over n miners gives all of them a part and hands out at most the reward and more than the reward minus n |
| Ledger.SplitProportional | payments/payer.go:110-124 | Each miner's part is the reward times its share of the whole work, rounded down |
| Coins.RoundTrip | payments/payer.go:550-559 | An amount survives being stored as coins |
| Coins.RoundingError | payments/payer.go:554-559 | Rounding moves an amount by at most half a base unit |
| Storage.DB.PutShareNow | storage/redis.go:84-170 | For any share the commands together log, trim, count, seal and add exactly the texts of `Storage.PutMeans` |
| Storage.PutMeans | storage/redis.go:84-170 | A valid share takes the next number, is logged last as miner:difficulty:number, and adds to its miner's open round; an accepted block becomes pending as hash:txHash:height:miner:number and closes the round under its height; nothing else changes |
| Storage.PutIsPath | storage/redis.go:84-170 | On clean keys, for a share the writer may be handed, those commands are a path of the protocol and leave the keys clean |
| Storage.DB.ApplyPayments | storage/redis.go:284-315 | The queued commands together move members by their text; on clean keys they are the one atomic commit of the protocol |
| Storage.CommitsClean | storage/redis.go:295-314 | On clean keys moving by text is moving by record, and the keys stay clean |
| Storage.DB.AddPayouts | storage/redis.go:292-294 | Every paid amount is added once, whatever the order |
| Storage.DB.SMoveConfirmed | storage/redis.go:295-297 | Exactly the pending members that are the text of a listed block move |
| Storage.DB.SetPayoutIntentTxid | storage/redis.go:335-339 | Stamping keeps the update and leaves a torn intent if the key was gone |
| Storage.DB.GetPPLNSShares | storage/redis.go:399-430 | The backward walk over the members returns the totals of the shortest newest-first suffix of the readable ones up to the mark that reaches the window |
| Storage.DB.GetSharesSince | storage/redis.go:441-470 | Totals and highest number of exactly the readable members newer than the cursor |
| Storage.DB.GetAllPendingBlocks | storage/redis.go:380-397 | The record of each pending member, or an error exactly when one of them cannot be read; on clean keys a listing of the pending blocks without repetition |
| Payer.PaymentManager.ProcessPayments | payments/payer.go:239-245 | Whatever the keys hold: an unstamped intent stops the cycle with nothing changed, a stamped one is committed first, and then the keys are exactly what the wallet's and the node's answers make of the pending members, in some order; the `Cycles` rows below say what that is. On clean keys the cycle is a path of the protocol from idle to idle |
| Cycles.CycleMoves | payments/payer.go:247-324 | For any replies, a listed block is in the confirmed list of the update if and only if its transaction has at least minConfirmations and no negative number of confirmations, its first detail for the pool, if any, is neither orphan nor kicked, and the mode is pps or its reward has somebody to go to; it is in the orphaned list if and only if it is off the chain or matured for nobody; a cycle that leaves the keys alone had neither |
| Cycles.ImmatureStays | payments/payer.go:274-284 | A block that is on the chain with fewer than minConfirmations, or that got no usable reply, is in neither list |
| Cycles.OutcomeMeans | payments/payer.go:391-456 | A block is lost exactly if its transaction is conflicted, its first detail for the pool is orphaned or kicked, or the wallet does not know it and the node rejects the block or has it off the main chain; it matures exactly as above, and its reward is that of the first detail paying the pool, or else the whole amount |
| Cycles.CycleDeletes | payments/payer.go:268-380 | The rounds a cycle deletes are exactly those at the heights of the blocks it confirms or orphans |
| Cycles.CycleGains | payments/payer.go:286-324 | Outside pps mode each miner's balance and payments grow by exactly its parts of the listed rewards that matured |
| Cycles.CyclePaysRate | payments/payer.go:330-386 | In pps mode they grow by the work newer than the cursor times rate times magnitude, rounded to the nearest unit, and the cursor moves to the newest share |
| Cycles.CycleSends | payments/payer.go:466-548 | Every update a cycle commits or leaves in its intent belongs to an attempt k of at most 8 whose predecessors were refused for their fees; with x the amount owed less the fraction withheld at k, a payable worker is sent the integer n with n <= x < n + 1 if that is at least 1 and the minimum, and otherwise nobody anything; what is sent in all leaves the fraction withheld in the wallet |
| Cycles.DecisionIs | payments/payer.go:301-324 | A run with nothing to settle commits its orphans alone or nothing; any other settles, commits when there was nothing to send or a txid came back, leaves an intent only when no answer came, and drops it only after a refusal |
| Payer.CleanRun | payments/payer.go:247-386 | On clean keys the run over texts is the run over records, and leaves clean keys |
| Payer.PaymentManager.ProcessBlocks | payments/payer.go:247-324 | A prop, pplns or solo run commits the classified blocks with the settlement of what matured, or the orphans alone, or nothing (`Cycles.CycleMoves`, `Cycles.CycleGains`); a member that cannot be read stops it |
| Payer.PaymentManager.ProcessPPS | payments/payer.go:330-386 | A pps run settles every share newer than the cursor at the rate (`Cycles.CyclePaysRate`) and commits the new cursor with the classified blocks; a member that cannot be read stops it |
| Payer.PaymentManager.Reconcile | payments/payer.go:218-237 | Goes on if and only if there is no intent or a stamped one, which it applies; otherwise nothing changes |
| Payer.PaymentManager.Settle | payments/payer.go:466-548 | At most eight sendmany attempts; it succeeds with the update of the first attempt that had nothing to send or got a txid, leaves that attempt's unstamped intent when no answer came, and no intent after a refusal; what an attempt sends is `Cycles.AttemptSends` |
| Cycles.SettledFrom | payments/payer.go:508-548 | Which attempt ends the settlement, from the wallet's answers: every earlier one had something to send and was refused for its fees, and giving up means another refusal or the eighth for fees |
| Cycles.AttemptSends | payments/payer.go:467-491 | On attempt k each worker keeps or is sent all it is owed; what is sent is the whole units of the amount owed less the fraction withheld, if it is payable and they are at least 1 and the minimum payment, and otherwise nothing |
| Cycles.AttemptWithholds | payments/payer.go:469-470 | On every attempt the total sent is at most the total owed less the fraction withheld |
| Payer.PaymentManager.Broadcast | payments/payer.go:508-547 | What each answer of the wallet leaves: the stamped intent, the unstamped one, none, or one more attempt with twice as much withheld |
| Payer.PaymentManager.ComputeAmounts | payments/payer.go:467-480 | The sendmany amounts are exactly what the update of the same attempt records as paid, which `Cycles.AttemptSends` determines |
| Payer.PaymentManager.FillUpdate | payments/payer.go:482-491 | Refilling the update of an earlier attempt leaves no stale payment behind |
| Payer.PaymentManager.ClassifyBlock | payments/payer.go:391-456 | The first detail paying the pool decides; the node's answer counts for an unknown transaction and makes no difference otherwise |
| Payer.PaymentManager.ScanBlocks | payments/payer.go:268-304 | The loop's workers and lists are those of classifying the listed blocks one by one, which is the protocol's path; `Cycles.ScanMoves` says what they hold |
| Cycles.ScanMoves | payments/payer.go:268-304 | After the loop a block was taken or orphaned exactly if it was listed and the replies say so, and each miner's reward grew by its parts of what matured |
| Payer.OnChainBlockKept | payments/payer.go:431-456 | An unknown coinbase orphans a block if and only if the node rejects the block or reports it off the main chain |
| Payer.AtMostEightAttempts | payments/payer.go:515-528 | Doubling from one per cent leaves room for exactly the attempts 0 to 7 |
| Payer.WithholdTable | payments/payer.go:515-528 | What the attempts withhold: nothing, 1, 2, 4, 8, 16, 32 and 64 per cent |
| Payer.SentShrinks | payments/payer.go:469-470 | No worker is sent more on a later attempt |
| Payer.Split | payments/payer.go:110-124 | The two loops compute the split |
| Varint.ReadVarint | engine/cryptonote/blob.go:67-84 | Returns the number of the varint at the position modulo 2^64, or the exact error |
| Varint.AppendVarint | engine/cryptonote/blob.go:86-92 | Appends the shortest encoding |
| Varint.RoundTrip | engine/cryptonote/blob.go:67-92 | Reading undoes appending for every uint64 with any bytes around it |
| Varint.ReadIsRaw | engine/cryptonote/blob.go:67-84 | Whatever is read is one varint of at most ten bytes, and nothing else makes the read succeed |
| Varint.OnlyEncoding | engine/cryptonote/blob.go:86-92 | A varint without a zero last group is the one the encoder writes |
| TreeHashing.TreeHash | engine/cryptonote/blob.go:27-63 | The in-place loops compute the recursive tree hash for every number of leaves |
| TreeHashing.PairUp | engine/cryptonote/blob.go:56-61 | One reduction in place reads every pair before it is overwritten |
| TreeHashing.FillSlots | engine/cryptonote/blob.go:46-54 | The first leaves are kept and the rest paired with none left over |
| TreeHashing.RootOfPairs | engine/cryptonote/blob.go:55-62 | Pairing a layer leaves the root of the perfect tree as it is |
| TreeHashing.WidthUnique | engine/cryptonote/blob.go:39-44 | Exactly one power of two w has w < n <= 2w |
| TreeHashing.TreeCommits | engine/cryptonote/blob.go:24-63 | Equal roots of equally many hashes mean equal lists, unless two of the strings hashed on the way collide |
| BlockBlob.ParseBlockBlob | engine/cryptonote/blob.go:113-213 | The parser with its loops returns the spans, the exact error or the panic of the specification |
| BlockBlob.ParsesPrinted | engine/cryptonote/blob.go:106-112 | Every well-formed block whose length fits an int is parsed back with its nonce offset, miner transaction span, version and hashes |
| BlockBlob.ParsedIsPrinted | engine/cryptonote/blob.go:113-213 | A blob that parses is a printed well-formed block, unless its extra length led backwards |
| BlockBlob.ParsesExactly | engine/cryptonote/blob.go:177-184 | A blob is a printed block if and only if it parses and its extra length did not lead backwards |
| HashingBlob.BackwardBlob | engine/cryptonote/blob.go:177-184 | A 74-byte blob that is no block and parses |
| HashingBlob.BuildHashingBlob | engine/cryptonote/blob.go:215-241 | Header, tree root over the miner transaction's id and the others, and their number; for every printed block exactly what `HashingBlob.HashesBlock` says |
| HashingBlob.HashesBlock | engine/cryptonote/blob.go:215-241 | For every well-formed block the blob is header, tree root over h and the other hashes, and their number plus one, where h is keccak of the miner transaction below version 2 and otherwise keccak of keccak(prefix), keccak(0) and 32 zeros in this order |
| HashingBlob.NonceInBlock | engine/cryptonote/blob.go:243-248 | Putting a nonce into the bytes of a block is putting it into the block, and into what it is hashed as at the same offset |
| HashingBlob.ForwardIsSliceable | engine/cryptonote/blob.go:215-241 | Every blob that parses forwards can be hashed without a slice panic |
| HashingBlob.ParseIgnoresNonce | engine/cryptonote/blob.go:113-248 | For every blob that can be hashed and every nonce, the parse is the same with the nonce put in |
| HashingBlob.NonceCommutes | engine/cryptonote/blob.go:229-248 | Hashing the blob with a nonce gives the original hashing blob with that nonce at the same offset |
| CryptonoteEngine.Engine.AcceptTemplate | engine/cryptonote/engine.go:119-168 | A template becomes the current job exactly when its blob with the extranonce parses and can be hashed; at most eight jobs, each paired with its own hashing blob |
| CryptonoteEngine.Engine.OnSubmit | engine/cryptonote/engine.go:242-321 | Every block ever submitted is the block whose hashing blob was hashed, and meets the network difficulty |
| CryptonoteEngine.Engine.CheckShare | engine/cryptonote/engine.go:267-321 | No nonce of a job is hashed twice, however it is spelled; the error code is the first check that fails (`CryptonoteEngine.VerdictMeans`), and a block is submitted, under its hash as claimed, exactly when both difficulties are met |
| CryptonoteEngine.VerdictMeans | engine/cryptonote/engine.go:267-302 | A share is accepted, or refused for its difficulty alone, exactly if its nonce is four new bytes and its claimed result is the hash of the hashing blob with that nonce; then the hash's difficulty against the miner's decides |
| CryptonoteEngine.JobHashesBlock | engine/cryptonote/engine.go:119-168 | The block in a job's blob is hashed as that job's hashing blob |
| CryptonoteEngine.GenuineIsBlock | engine/cryptonote/engine.go:276-318 | Every candidate is a printed block whose own hash meets the network difficulty |
| CryptonoteEngine.ExtranonceInPlace | engine/cryptonote/engine.go:119-140 | The eight reserved bytes hold the job's counter, all others are the template's |
| CryptonoteEngine.Evict | engine/cryptonote/engine.go:159-165 | At most eight jobs stay and the new one among them |
| Hex.LowerHexIsEncoded | engine/cryptonote/engine.go:257-283 | Lower-case hex text is determined by its bytes, so the duplicate check on text is one on nonces |
| Hex.LowerKeepsBytes | engine/cryptonote/engine.go:257-258 | Lower-casing hex text does not change its bytes |
| Merkle.CalculateSteps | merkletree/mtree.go:33-61 | Computes the branch whose first leaf is left open |
| Merkle.MerkleTree.WithFirst | merkletree/mtree.go:63-69 | Climbs the branch from a first leaf |
| Merkle.BranchGivesRoot | merkletree/mtree.go:33-69 | For every first leaf and list of others, branch and leaf give the root of the full tree with the last node doubled |
| Merkle.StepCount | merkletree/mtree.go:33-61 | The branch has ceil(log2 n) steps |
| Merkle.MerkleRoot | engine/equihash/equihash.go:446-464 | The second implementation computes the same root of the hashed transactions |
| Merkle.BothRoots | engine/equihash/equihash.go:446-464 | On every non-empty list of hashed raw transactions it agrees with the branch taken from the first |
| Merkle.Range | utils/utils.go:198-224 | Exactly the multiples of the step from start that stay before stop, in either direction |
| Packing.SerializeNumber | utils/utils.go:156-174 | Pushes every number below 2^63 and runs out of its buffer for every other |
| Packing.NumberReads | utils/utils.go:156-174 | Every number below 2^63 is read back from its push |
| Packing.NumberBytesMinimal | utils/utils.go:163-173 | No shorter little-endian string with a clear sign bit stands for the number (BIP 34, Specification), except the empty one for 0 |
| Packing.VarIntReads | utils/utils.go:96-119 | A compact size is read back wherever it is written |
| Packing.StringIsVarString | utils/utils.go:121-154 | A serialized string is its compact size and its bytes |
| Packing.ReverseBytes | utils/utils.go:188-196 | The swap loop reverses |
| Coinbases.ValueConserved | transactions/transactions.go:24-113 | In uint64 arithmetic the outputs always sum to the coinbase value, whatever fees are configured |
| Coinbases.ValueExact | transactions/transactions.go:24-107 | With non-negative fee fractions up to 1 in all, the sum is exact and the pool's share is what is left if and only if the payees fit |
| Coinbases.OutputsStandard | transactions/transactions.go:36-46 | The output list is the standard serialization if and only if every masternode entry has no script and an amount that is the same in both byte orders |
| Coinbases.OutputsInOrder | transactions/transactions.go:24-126 | One by one: witness commitment (BIP 141, Commitment structure), pool, masternodes and superblocks as listed, the named payee with its amount or the ceiling of a fifth of what was left, and each fee recipient in order with its script and the whole units of its fraction of what the payees left |
| Coinbases.GenerateOutputTransactions | transactions/transactions.go:24-126 | Writes the outputs of `Coinbases.OutputsInOrder` in their order, each masternode with its amount big-endian and no script |
| Generation.TxReads | transactions/transactions.go:172-197 | Every transaction in the standard serialization is read back |
| Generation.ParsedIsPrinted | transactions/transactions.go:172-197 | Whatever is read as a transaction is at least as long as its standard serialization, and is it if just as long |
| Generation.CoinbaseParses | transactions/transactions.go:128-208 | For any extranonces of the reserved length the completed coinbase parses to the intended transaction, whose script starts by pushing the height and whose outputs pay out the block, if and only if every masternode entry comes out as a standard output |
| Generation.ScriptReads | transactions/transactions.go:146-170 | The script pushes the height, then has the flags, pushes the time, gives the extranonces' length in one byte, and ends with them and the pool's signature |
| Generation.IntendedFields | transactions/transactions.go:128-191 | The version, type, input, sequence, lock time and timestamp it parses to |
| Generation.PoolMarks | transactions/transactions.go:134-170 | The signature and the comment, byte for byte |
| Generation.HalvesArePrinted | jobs/job.go:100-111 | The halves with the extranonces between them are the serialization of the intended transaction if and only if every masternode entry comes out as a standard output |
| Generation.MasternodeScriptLost | transactions/transactions.go:41-44 | A masternode paid one satoshi to a one-byte script gets nine bytes instead of ten, and the coinbase does not parse to the intended transaction |
| Generation.CreateGeneration | transactions/transactions.go:128-208 | Returns the two halves, or panics exactly for a negative height or a time past 2^63 |
| Generation.PayloadFollows | transactions/transactions.go:142-205 | A transaction of type 5 carries its payload behind the lock time exactly when there is no comment and the payload is not empty |
| Alephium.BigEndianIs | engine/alephium/alephium.go:375-401 | Numbers are read and written most significant byte first |
| Alephium.JobsExactly | engine/alephium/alephium.go:346-367 | A payload is read as a list of jobs if and only if it starts with their encoding and they are at most 4096 |
| Alephium.JobsRead | engine/alephium/alephium.go:7-16 | Every list of up to 4096 jobs is read back, whatever follows |
| Alephium.ParseJobs | engine/alephium/alephium.go:346-367 | The loop over the reader returns those jobs with consecutive ids, or nothing |
| Alephium.Reader.ReadInt32 | engine/alephium/alephium.go:375-383 | An error is sticky and the position never passes the end |
| Alephium.Reader.ReadBlob | engine/alephium/alephium.go:385-394 | Reads exactly a length-prefixed blob or sets the error |
| Alephium.BlobReads | engine/alephium/alephium.go:385-401 | A blob is read back wherever it is written |
| Alephium.FrameRoundTrip | engine/alephium/alephium.go:318-344 | A built frame is read back if and only if it is within the size limit, also where its length overflows the header |
| Alephium.FrameIsBuilt | engine/alephium/alephium.go:318-333 | A frame that is read was its length, version, type and payload |
| Alephium.SubmittedBlockArrives | engine/alephium/alephium.go:289-299 | A submitted block arrives as sent |
| BlockText.RoundTrip | storage/block.go:29-55 | A record with colon-free fields is read back as written |
| BlockText.PrintsBack | storage/block.go:29-55 | A record prints back to the text it was read from if and only if the text has five fields with numbers in shortest form |
| BlockText.CanonicalIsWritten | storage/block.go:29-33 | Those texts are exactly the ones of colon-free records |
| BlockText.RecordedIsCanonical | storage/redis.go:151-157 | A recorded block can be moved later if and only if its finder's name has no colon |
| BlockText.WrittenIsCanonical | storage/block.go:29-33 | The text of any record is canonical if and only if its fields have no colon and its numbers fit |
| BlockText.ColonFinderReads | storage/block.go:37-55 | Of a finder with a colon the part before it is read, and the mark from what follows |
| BlockText.TextFixesMark | storage/block.go:29-33 | Records with equal texts have equal marks, whatever the other fields hold |
| TextRuns.SettledLeaves | storage/redis.go:295-300 | A settled block leaves pending if and only if its finder's name has no colon |
| TextRuns.CommitRemoves | storage/redis.go:295-300 | A commit removes exactly the canonical members whose records it settles |
| TextRuns.SettledOnceOrStays | payments/payer.go:239-386 | Over every history of shares, cycles, interrupted cycles, resumed intents and operator actions, a block of a colon-free finder is settled at most once and is gone exactly then, and one of a finder with a colon stays pending |
| TextRuns.SettledAtMostOnce | payments/payer.go:239-386 | A recorded pending block is settled at most once in every history from here if and only if its finder's name has no colon |
| TextRuns.PaidEveryCycle | payments/payer.go:247-324 | In solo mode a finder with a colon has its block's reward paid in each of n cycles, to the part of the name before the colon |
| TextRuns.PaidTwice | payments/payer.go:247-324 | The member "h:t:5:a:b:1" is paid to "a" by two cycles and is still pending |
| Repayments.PaidAtMostOnce | payments/payer.go:78-124 | Outside pps mode a recorded pending block's reward is divided at most once, in every history that brings it no new work, if and only if its finder's name has no colon or there is nobody to pay without its round: in solo mode nothing before the colon, by window no work up to the mark that was read, by round always |
| Repayments.WhoIsPaid | payments/payer.go:78-124 | Solo divides exactly for a name, a window exactly for work logged up to the mark, a round only while it is there |
| Repayments.PaidOnceByRound | payments/payer.go:101-107 | By round a block of any name is paid at most once until another block is accepted at its height |
| Repayments.NeverPaid | payments/payer.go:85-100 | A block with nobody to pay stays so, whatever shares follow |
| Repayments.WorkInWindow | storage/redis.go:399-430 | A window of a log of non-negative shares holds work if the log holds any up to the mark |
| LogText.ReadsBack | storage/redis.go:412-420 | A logged share is read back as logged if and only if the miner's name has no colon |
| LogText.ColonNameReads | storage/redis.go:412-420 | Of a name with a colon the part before it is the miner and the next part the difficulty, or the share is skipped |
| LogText.ColonNames | storage/redis.go:412-420 | A share of "a:100" counts 100 for "a", and one of "a:b" is skipped |
| LogText.EntriesSelected | storage/redis.go:399-420 | Selecting members by score and reading them is reading all of them and selecting by number |
| BlockText.MovesWhatWasRead | storage/redis.go:295-300 | SMOVE moves exactly the member that was read if it is canonical, and otherwise leaves it in pending |
| BlockText.JoinSplit | storage/block.go:38-38 | Splitting and joining at colons are inverse |
| VarDiffs.RingBuffer.Append | vardiff/ringbuffer.go:19-31 | The buffer is a rotation of the newest maxSize intervals since the last clear |
| VarDiffs.RingBuffer.Avg | vardiff/ringbuffer.go:33-48 | The mean of those intervals |
| VarDiffs.RingBuffer.Clear | vardiff/ringbuffer.go:50-54 | Starts over with nothing |
| VarDiffs.X2KeepsRange | vardiff/vardiff.go:64-88 | In X2 mode a difficulty in range is halved, doubled or kept, and stays in range |
| VarDiffs.RangeLeftOnlyWhenSlow | vardiff/vardiff.go:58-71 | Otherwise it leaves the range if and only if shares are slow and the ratio carries it past the maximum |
| VarDiffs.NanosecondsOverSeconds | vardiff/vardiff.go:60-60 | A concrete retarget from 2 to a billion |
| VarDiffs.VarDiff.CalcNextDiff | vardiff/vardiff.go:40-94 | For any configuration with a target time and any difficulty: answers 0 until a retarget is due and then the retarget for the mean of the newest intervals, infinite or not a number where the code divides by zero; only one outside the target band clears the intervals |
| VarDiffs.NextDiffIsRetarget | vardiff/vardiff.go:58-94 | With a positive target time, a variance of at least -1 and a positive difficulty the answer is always a number |
| VarDiffs.NextDiffIs | vardiff/vardiff.go:58-94 | From the configuration itself: nothing changes with a mean within the variance of the target time, or slow at the minimum; in X2 mode the difficulty is halved or doubled, otherwise it times the mean is the target's nanoseconds times the old one; raised to the minimum when slow, cut to the maximum when fast |
| VarDiffs.QuotientTruncates | vardiff/vardiff.go:20-34 | The division in the buffer size truncates toward zero |
| VarDiffs.SlowZeroMean | vardiff/vardiff.go:58-64 | With a variance of -2 a mean of zero makes the difficulty infinite |
| Pow.MeetsTarget | engine/pow.go:8-26 | A positive hash meets a difficulty's target if and only if it represents at least that difficulty |
| Pow.TargetIs | engine/pow.go:11-26 | The target is the base over the difficulty rounded down, a non-positive difficulty counting as 1, and a positive value times its difficulty is the base |
| ShareCredit.CreditedForWorkDone | stratum/engine.go:293-318 | A share is accepted exactly when its hash represents the current difficulty or the previous one, and is credited the one it meets, the current first |
| ShareCredit.CreditWithinWork | stratum/engine.go:304-318 | Credit exceeds the work only for a hash of zero |
| ShareCredit.Client.HandleSubmit | stratum/engine.go:214-231 | Whatever engines answer, over any sequence of submits and retargets every credit is the current or the previous assigned difficulty, and within the work where the engine checked the target |
| ShareCredit.Client.ApplyVarDiff | stratum/engine.go:271-291 | The next assigned difficulty is what the retarget answers, unless that is 0 or no change; all of them stay positive, and in X2 mode in range |

## Left out

- Guarantees.PaidExactlyOnce: like every guarantee of a reachable state, is about shares of colon-free names, colon-free hashes and heights below 2^63, and accepted blocks that come with a valid share; for names with colons TextRuns, Repayments and LogText say what happens instead. An accepted block without a valid share would have mark 0, which nothing tells apart.
- Repayments.PaidAtMostOnce: is about histories without a second block at the same height (by round) and without shares numbered up to a mark that lies ahead (by window); such events bring a colon name new work to be paid for. By window it assumes a log of non-negative difficulties.
- Payer.PaymentManager.ProcessPayments: calls to the store do not fail in the class; failing calls are steps of the protocol (Abort), to which its guarantees apply. With clean keys and no unstamped intent it asks for a quiet network, which every reachable state then has (Invariant.IntentInv).
- Payer.PaymentManager.ClassifyBlock: the replies are functions of the block, so that the node is not even asked about a known transaction is not stated.
- Storage.DB.PutShareNow: FormatFloat and ParseFloat are parameters of which only the round trip of the logged difficulty is assumed, and only where Storage.PutIsPath names it.
- VarDiffs.VarDiff.CalcNextDiff: takes the clock as a parameter; the constructor needs a target time other than 0, as the division in the code does, and the sign of a float64 zero is not modelled.
- ShareCredit.Client.HandleSubmit: banning and the share put into the store are left out; a port difficulty is positive, and the retarget options are such that every answer is a number (VarDiffs.NextDiffIsRetarget).
- Coinbases.GenerateOutputTransactions: scripts arrive decoded from hex or addresses, and the amount of a named payee is a uint64, although a decoded JSON number would fail the type assertion.
- Merkle.BothRoots: has the hashes of the raw transactions as leaves of both; jobs/job.go reads its leaves from the template's txid or hash fields.
- Awards.AwardPaysItsWindow: a window that reaches behind the capped log is paid as far as the log goes; that is what its first clause says.
- Rounding of float64 and big.Float, and what FormatFloat drops when balances are written.
- CryptonoteEngine.Engine.AcceptTemplate: which of the older jobs is dropped stays open, as Go leaves the order of a map open; job ids are numbers, not their hex text.
- CryptonoteEngine.Engine.OnSubmit: the locks are not modelled, calls happen one after the other.
- BlockBlob.ParseBlockBlob: the panic of an allocation for a huge declared number of hashes is not modelled; with too few bytes behind it the model answers with the error instead.
- Varint.ReadVarint: OR of disjoint bits is written as addition.
- Payer.PaymentManager.Settle: workers and the update are values that are passed on and returned, so aliasing of the Go pointers is not captured; logging is left out.
- Guarantees.AmbiguousIntentHalts: the operator clears an unstamped intent only when nothing was broadcast; anything else is the operator's own risk.
- An error reply of sendmany is taken to mean that nothing was broadcast, as the code takes it; no reply at all may mean either.
- A Redis call that fails ends the run or drops the writer's remaining commands, before or after the command took effect; INCR failing and returning 0 is not modelled.
- Job.SerializeHeader, Job.SerializeBlock and Job.RegisterSubmit, which are settled by reading one body, and GetVoteData, which is incomplete.
- Statistics keys (hashes, rigs, miner index, valid and invalid counters), which no payout reads.
- RandomX, Keccak, SHA-256 and Blake3, which are arbitrary functions here.
- The other engines' protocols, the stratum server, p2p, banning, configuration, the API server and all network code.
