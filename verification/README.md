# dchat: models and proofs

dchat is a decentralised chat system: a chat chain that commits to batches of transactions, a
currency chain that pays for them, relays that are rewarded for work, and clients that queue
what they cannot send. This project models its state-carrying core and proves what that core
keeps on every input, every run and every interleaving.

| module | source | subject |
|---|---|---|
| `Bytes`, `MapSums` | | machine integers, little-endian words, hex, sums over maps |
| `Canonical` | `canonical.rs` | domain-separated hash preimages |
| `HashMerkle` | `hash_merkle.rs` | Merkle root, proof generation, proof verification |
| `StateEncoding` | `block_hierarchy_legacy.rs` | the byte string behind the state hash |
| `Transactions`, `WorldState` | `block_hierarchy_legacy.rs` | transactions and the ledger they run on |
| `Lanes` | `block_hierarchy_legacy.rs` | sharding by primary account, parallel execution |
| `StateBinding` | `block_hierarchy_legacy.rs` | when the state hash determines the balances |
| `Miniblocks`, `BodyBinding`, `Subblocks` | `block_hierarchy_legacy.rs` | headers that commit to bodies, execution, assembly |
| `HeaderEncoding`, `SubblockRoots` | `block_hierarchy_legacy.rs` | header hashes, and what a subblock's root binds |
| `Packer` | `chain_synchronizer.rs` | distribution of a block's transactions |
| `Faucet` | `faucet.rs` | fixed-window limiter with cooldown |
| `BlockSync` | `currency_chain_block_sync.rs` | bounded block cache, fork choice, reorganisation |
| `FeeOrchestrator` | `fee_orchestrator.rs`, `currency_chain.rs`, `fee_distribution.rs` | charges, pools, escrows |
| `FeeGateway` | `fee_gateway.rs` | the fee-gated send as a saga |
| `FeeCosts` | `fee_gateway.rs` | what every send costs, and exactly when it is delivered |
| `RelayWorkStore` | `relay_work_store.rs` | deduplicating event store with persistence |
| `OfflineQueue` | `light_client.rs` | offline queue and its drain |
| `SpeechQueue` | `tts.rs` | priority speech queue |

## How the model is built

- An object that the source updates in place is a class. Its methods are proved equal to
  reference functions on a snapshot (`View()`), or keep an invariant (`Valid()`); the lemmas then
  reason about those functions over whole runs. What the main reference functions compute is also
  stated without them, in literal amounts and field by field (`WorldState.Effect`,
  `Miniblocks.Documents`, `BlockSync.RightlyKept`, `Faucet.AnsweredBy`, `FeeCosts.OutcomeFor`), and
  the methods ensure these statements too.
- Hashing is an arbitrary function to 32 bytes. Collision-freeness is a hypothesis of the lemma
  that needs it, and only on the finite set of byte strings which the computations at hand really
  hash: no function into 32 bytes is injective everywhere.
- `u64` additions that the source leaves unchecked wrap around, as they do in its release profile
  (a debug build would panic). Saturating additions saturate. Fee sums, storage fees and burns are
  taken in 64 bits. Wallets and pools are unbounded numbers; `FeeCosts.FundsFit` shows that this
  makes no difference as long as all tokens together fit 64 bits.
- Clock readings, RPC answers, captcha checks, validator stakes, hash-map iteration orders and
  randomly drawn ids are arguments.
- Transaction payloads are modelled after deserialisation, with the parser's error as one case.

## Where the code does not do what one would expect

Each of these is proved of the code as it is.

- `merkle_proof` pads with zero hashes (its comment speaks of duplicated leaves) while
  `merkle_root` promotes an odd node. The generated proof is accepted against the root exactly
  when the number of leaves is a power of two (`HashMerkle.ProofAcceptedIffPowerOfTwo`,
  `BodyBinding.TxProofAcceptedIffPowerOfTwo`).
- The state hash runs its columns and entries together. An entry counts the same as a balance and
  as a nonce (`StateEncoding.ColumnsAreNotSeparated`). Over the ledgers that transactions build,
  it determines the balances if and only if account ids do not have two different positive lengths
  (`StateBinding.StateHashBindsIff`): relay ids are free texts, and two histories of two delivery
  proofs each already share a state hash (`StateBinding.TwoLengthsConfuse`). Stakes and reputation
  are not part of it at all.
- Rewarding a relay creates its account, so the order of miniblocks of different lanes can matter
  (`Lanes.LanesCanClash`). Two transactions of different owners commute in every ledger exactly
  when neither credits an account whose existence the other checks (`Lanes.CommuteIff`).
- The faucet's cooldown holds on all runs exactly when the cooldown is at most 48 hours and at
  most the cleanup interval, or when nothing is ever granted (`Faucet.CooldownIffPurgesAreLate`).
  Its eligibility check forgets the daily reset (`Faucet.EligibilityCanBeStale`).
- The "common ancestor" of a fork is always the disputed parent itself, and a fork beyond the
  confirmed height never reorganises (`BlockSync.AncestorIsTheDisputedParent`,
  `BlockSync.ForkBeyondTipKeepsCache`).
- After the initial sync the confirmed height never rises (`BlockSync.HeightNeverRises`), so no
  block that queues at or above it is ever confirmed (`BlockSync.LaterBlocksStayPending`). The
  periodic fork check keeps its read guard while it resolves a fork: it never ends if the cached
  branch wins, and never reorganises if it ends (`BlockSync.CheckEndsIff`). A check that does not
  end freezes cache and height for good (`BlockSync.StuckCheckFreezesCache`). With a cache size of
  zero the eviction loop never ends (`BlockSync.EvictionEndsIff`).
- `UserId::default()` draws a random id, so the protocol's escrow account differs between holding
  and releasing; an account without a wallet delivers nothing
  (`FeeCosts.FreshAccountNeverDelivers`). `FeeCosts.DeliveredIff` gives the exact condition for
  every state. Every transfer burns a share, so a refunded send costs the payer that share
  (`FeeCosts.FailedSendCost`, `FeeCosts.SoleEscrowCost`). A channel post whose wait for finality
  fails refunds nothing (`FeeCosts.UnrefundedCost`).
- An operation's escrow belongs to one relay, while the relay may be drawn anew at every call. Once
  an escrow was returned the operation is never delivered through that relay, but can be through
  another (`FeeCosts.ReturnedRelayMustBeReplaced`). A repeat after a failed release pays for blob
  storage again and, when it draws another relay, the message fee as well (`FeeCosts.RepeatCost`).
- The balance check adds its fees in 64 bits and is sufficient exactly while the sum does not wrap
  (`FeeGateway.RequiredIsTheSumIff`, `FeeCosts.CheckSufficesIff`). Fee shares above one hundred
  percent are not refused and would create tokens (`FeeOrchestrator.SplitConservesIff`). A
  delivered message has no stored content when the storage refused it
  (`FeeGateway.StoredOnlyAfterEverything`).
- Two callers that pass the duplicate check before either commits record one work event twice
  (`RelayWorkStore.RaceRecordsTwice`). Runs are free of duplicates exactly when no call is started
  for an id and epoch that is in flight (`RelayWorkStore.UniqueIffCalm`). Recording does not look
  at the cutoff, so an id is accepted again once its epoch was swept
  (`RelayWorkStore.RecordableIff`, `RelayWorkStore.SweptIsRecordedAgain`).
- A drain puts its failures back without regard to the queue's limit. It can leave the queue above
  its limit if and only if something sendable is among the last operations that fit the limit, or
  more operations can be retried than it allows (`OfflineQueue.CanOverflowIff`).
- `connect` drains the offline queue before the client is ready. Left alone, that drain ends
  exactly when nothing sendable is among the last operations that fit the limit
  (`OfflineQueue.NotReadyDrainEndsIff`).

## Model

| member | source | states |
|---|---|---|
| Canonical.TagsNeverClash | crates/dchat-blockchain/src/canonical.rs:29-47 | Preimages under two tags are equal only if the tags and everything after them are equal. |
| Canonical.DistinctTags | crates/dchat-blockchain/src/canonical.rs:6-13 | The tag constants are pairwise different and contain no zero byte, which the separation of domains needs. |
| Canonical.TerminatedInjective | crates/dchat-blockchain/src/canonical.rs:38-47 | Lists of parts with equal part lengths are recovered from their zero-terminated encoding. |
| Canonical.NodePreimageInjective | crates/dchat-blockchain/src/canonical.rs:38-47 | Two inner nodes with one preimage have the same children in the same order. |
| Canonical.NodeLayout | crates/dchat-blockchain/src/canonical.rs:38-47 | An inner node hashes the tag, the left child and the right child, each ended by a zero byte. |
| Canonical.PairLayout | crates/dchat-blockchain/src/block_hierarchy_legacy.rs:793-823 | An untagged node hashes the left child followed by the right child, 64 bytes in all. |
| Bytes.LittleEndianRoundTrip | crates/dchat-blockchain/src/block_hierarchy_legacy.rs:689-763 | Fixed-width little-endian words decode to the number they encode. |
| Bytes.HexRoundTrip | src/relay_work_store.rs:104-190 | Hex text decodes to exactly the bytes it was made from. |
| Bytes.HexDigitsOf | crates/dchat-blockchain/src/block_hierarchy_legacy.rs:915-920 | An account key is written with two lower-case digits per byte, the high half first. |
| Bytes.HexDecodesIff | src/relay_work_store.rs:129-141 | A persisted text decodes if and only if it consists of pairs of hex digits, in either case. |
| HashMerkle.RootIsTreeHash | crates/dchat-blockchain/src/hash_merkle.rs:42-68 | Combining level by level with promotion of the odd node is the recursive tree split at the largest power of two below the length. |
| HashMerkle.MerkleRoot | crates/dchat-blockchain/src/hash_merkle.rs:42-68 | The loop returns that recursive tree hash; no leaves give the zero hash. |
| HashMerkle.CombineLevel | crates/dchat-blockchain/src/block_hierarchy_legacy.rs:793-823 | One level of the loop, shared with the untagged root of the block hierarchy. |
| HashMerkle.Verify | crates/dchat-blockchain/src/hash_merkle.rs:16-39 | Accepts exactly when path and directions have one length and climbing from the leaf ends in the expected root. |
| HashMerkle.MerkleProof | crates/dchat-blockchain/src/hash_merkle.rs:73-126 | No proof exactly for an index out of range; otherwise the sibling path of that leaf, which climbs to the tree hash of the zero-padded list. |
| HashMerkle.PadToPowerOfTwo | crates/dchat-blockchain/src/hash_merkle.rs:89-94 | The list is extended by zeros to the least power of two that holds it, the real leaves being a prefix. |
| HashMerkle.ClimbLevels | crates/dchat-blockchain/src/hash_merkle.rs:96-126 | Index, level, path and directions move together so that the result is the sibling path and the binary digits of the index. |
| HashMerkle.DirectionsSpellTheIndex | crates/dchat-blockchain/src/hash_merkle.rs:96-126 | The directions of a generated proof are the binary digits of the leaf's index, lowest level first. |
| HashMerkle.HeightIsNextPowerOfTwo | crates/dchat-blockchain/src/hash_merkle.rs:89-94 | The padded length is at least the number of leaves and less than twice that number. |
| HashMerkle.HonestProofClimbs | crates/dchat-blockchain/src/hash_merkle.rs:73-126 | Completeness: on every power-of-two list, the generated proof of every index reaches the root. |
| HashMerkle.RootInjective | crates/dchat-blockchain/src/hash_merkle.rs:42-68 | Without collisions on the hashed pairs, lists of equal length with one root are equal. |
| HashMerkle.RootDeterminesList | crates/dchat-blockchain/src/hash_merkle.rs:42-68 | If moreover no leaf can be a node, the root determines the list whatever its length: promotion loses nothing. |
| HashMerkle.ProofSound | crates/dchat-blockchain/src/hash_merkle.rs:16-39 | An accepted proof of full length whose directions spell an index, against a power-of-two list, carries exactly that leaf and the honest path. |
| HashMerkle.AcceptedIsMember | crates/dchat-blockchain/src/hash_merkle.rs:16-68 | For a list of any length and a proof of any length and directions, a leaf that cannot be a node is accepted only if it is in the list. |
| HashMerkle.PaddingMovesTheRoot | crates/dchat-blockchain/src/hash_merkle.rs:42-94 | Zero-padding leaves the root unchanged if and only if there was nothing to pad. |
| HashMerkle.ProofAcceptedIffPowerOfTwo | crates/dchat-blockchain/src/hash_merkle.rs:42-126 | The generated proof is accepted against the root of the original list if and only if its length is a power of two. |
| HashMerkle.ThreeLeafGap | crates/dchat-blockchain/src/hash_merkle.rs:59-94 | With three leaves the generated proof is accepted only if the third leaf equals its own combination with zero. |
| WorldState.Ledger.ApplyTransaction | crates/dchat-blockchain/src/block_hierarchy_legacy.rs:895-1078 | By type, the exact gas, the exact condition of success and error text, and the new balance, stake and reputation entry as a difference from before, every other entry unchanged; after a success the state root is the digest of the new columns, and after an error nothing has changed. |
| WorldState.TransactionMeans | crates/dchat-blockchain/src/block_hierarchy_legacy.rs:895-1078 | The reference transition on which the results over whole runs rest has exactly these effects, for every ledger and transaction. |
| WorldState.RegisterMeans | crates/dchat-blockchain/src/block_hierarchy_legacy.rs:903-929 | A registration succeeds exactly for a key of at least 32 bytes, costs 31000, sets the reputation and keeps or opens the account with its funds. |
| WorldState.MessageMeans | crates/dchat-blockchain/src/block_hierarchy_legacy.rs:931-963 | A message succeeds exactly for a registered sender, costs 21000 and one per hundred bytes, and pays its relay 100 tokens if it has one. |
| WorldState.ChannelMeans | crates/dchat-blockchain/src/block_hierarchy_legacy.rs:965-1007 | A channel succeeds exactly for a registered creator who covers the stake, costs 71000, and moves the stake from balance to stakes. |
| WorldState.CreditIs | crates/dchat-blockchain/src/block_hierarchy_legacy.rs:946-952 | A credit adds to one balance modulo 2^64, opening the account if need be, and leaves all others. |
| Transactions.DecimalRoundTrip | crates/dchat-blockchain/src/block_hierarchy_legacy.rs:982-987 | The numbers in an error text are decimal and denote the amounts compared. |
| WorldState.Ledger.Reward | crates/dchat-blockchain/src/block_hierarchy_legacy.rs:946-952 | The relay's balance alone grows by the reward, modulo 2^64, an absent account counting as zero. |
| WorldState.Ledger.ComputeHash | crates/dchat-blockchain/src/block_hierarchy_legacy.rs:855-891 | Whatever order the maps iterate in, the digest is taken of one and the same byte string, the three columns in key order; stakes and reputation do not enter. |
| StateEncoding.SortingIsUnique | crates/dchat-blockchain/src/block_hierarchy_legacy.rs:861-870 | Sorting by key gives one list whatever order the entries were collected in. |
| StateEncoding.KeysAscend | crates/dchat-blockchain/src/block_hierarchy_legacy.rs:861-887 | Keys are written in ascending order: of two, the earlier ends or has the smaller element where they first differ. |
| StateEncoding.SortKeys | crates/dchat-blockchain/src/block_hierarchy_legacy.rs:861-862 | Insertion of keys in an arbitrary order yields exactly these keys, strictly increasing. |
| StateEncoding.EncodeColumn | crates/dchat-blockchain/src/block_hierarchy_legacy.rs:861-874 | One column is written as the concatenation of its entries in key order, independent of iteration order. |
| StateEncoding.EncodeSlots | crates/dchat-blockchain/src/block_hierarchy_legacy.rs:881-886 | The slots of one account likewise. |
| StateEncoding.EncodeStorage | crates/dchat-blockchain/src/block_hierarchy_legacy.rs:877-887 | All accounts likewise, each name followed by its slots. |
| StateEncoding.StateLayout | crates/dchat-blockchain/src/block_hierarchy_legacy.rs:855-891 | Balances come first, then nonces, then storage; a name is followed by its value in eight little-endian bytes, an account by its slots, a key by its value. |
| StateEncoding.ColumnsAreNotSeparated | crates/dchat-blockchain/src/block_hierarchy_legacy.rs:860-874 | One balance and one nonce of the same name and value have the same preimage, so the hash does not bind the state. |
| StateEncoding.ColumnBinds | crates/dchat-blockchain/src/block_hierarchy_legacy.rs:861-866 | A column whose names have one length is determined by its bytes, whatever the number of entries. |
| StateEncoding.StorageBinds | crates/dchat-blockchain/src/block_hierarchy_legacy.rs:877-887 | Storage of one shape (name, key and value lengths, slots per account) is determined by its bytes. |
| StateEncoding.StateBinds | crates/dchat-blockchain/src/block_hierarchy_legacy.rs:855-891 | With equally many balances, equally many nonces, names of one length per column and storage of one shape, the preimage determines all three columns. |
| StateBinding.LengthsAreNotSeparated | crates/dchat-blockchain/src/block_hierarchy_legacy.rs:863-866 | For any two different positive name lengths, two different columns of two accounts each have one preimage. |
| StateBinding.OneLengthBinds | crates/dchat-blockchain/src/block_hierarchy_legacy.rs:861-866 | Columns whose names are empty or of one length are equal if their bytes are. |
| StateBinding.BalancesBindIff | crates/dchat-blockchain/src/block_hierarchy_legacy.rs:855-891 | Over columns with names of given lengths, the preimage determines the balances if and only if at most one of the lengths is positive. |
| StateBinding.DeliveriesBuild | crates/dchat-blockchain/src/block_hierarchy_legacy.rs:1046-1071 | Two delivery proofs build any ledger of two accounts with names of zeros and ones. |
| StateBinding.TwoLengthsConfuse | crates/dchat-blockchain/src/block_hierarchy_legacy.rs:855-1078 | For any two different positive id lengths, two histories of two delivery proofs each have different balances and one state hash, whatever the digest. |
| StateBinding.StateHashBinds | crates/dchat-blockchain/src/block_hierarchy_legacy.rs:855-1078 | Ledgers built from nothing with ids of at most one positive length have equal state hashes if and only if they have equal balances. |
| StateBinding.StateHashBindsIff | crates/dchat-blockchain/src/block_hierarchy_legacy.rs:855-1078 | Over all histories whose accounts have ids of given lengths, the state hash determines the balances if and only if no two different positive lengths occur. |
| WorldState.CommitConserves | crates/dchat-blockchain/src/block_hierarchy_legacy.rs:895-1078 | One successful transaction changes balances plus stakes by exactly what it mints, less 2^64 per lost carry. |
| WorldState.Conservation | crates/dchat-blockchain/src/block_hierarchy_legacy.rs:895-1078 | Over any sequence the supply grows by 100 per successful relayed message plus every successful delivery reward, less 2^64 per lost carry; failures mint nothing. |
| WorldState.NoWrapWhenSupplyFits | crates/dchat-blockchain/src/block_hierarchy_legacy.rs:895-1078 | If supply plus mint fits a u64 no addition wraps and conservation is exact. |
| WorldState.AccountsPersist | crates/dchat-blockchain/src/block_hierarchy_legacy.rs:895-1078 | No account, stake or reputation entry ever disappears; nonces and storage never change. |
| Lanes.LaneError | crates/dchat-blockchain/src/block_hierarchy_legacy.rs:624-635 | There is no sharding error if and only if every transaction belongs to the lane. |
| Lanes.ValidateLaneSharding | crates/dchat-blockchain/src/block_hierarchy_legacy.rs:624-635 | Nothing is reported if and only if all transactions are in the lane; otherwise the error is that of the first that is not: its parse error, or the violation naming its id, its own lane and the miniblock's. |
| Lanes.LaneComesFrom | crates/dchat-blockchain/src/block_hierarchy_legacy.rs:640-687 | The lane is the first two digest bytes, little-endian, of the registering, sending, creating, posting or joining user, of a delivery's recipient, or of a profile update's hash; a payload that does not parse has no lane. |
| Lanes.LaneOfKey | crates/dchat-blockchain/src/block_hierarchy_legacy.rs:684-686 | The two bytes of the lane number, low byte first, are the first two bytes of the digest. |
| Lanes.DecisionUnaffected | crates/dchat-blockchain/src/block_hierarchy_legacy.rs:895-1078 | A transaction's outcome is the same before and after an independent one: different owners, no credit to an account the other checks. |
| Lanes.IndependentCommute | crates/dchat-blockchain/src/block_hierarchy_legacy.rs:895-1078 | Two independent transactions give the same ledger in either order, state root included. |
| Lanes.InterleavingRuns | crates/dchat-blockchain/src/block_hierarchy_legacy.rs:556-609 | Every interleaving of two independent lists ends in the ledger of running them in turn, and interleaves their solitary traces. |
| Lanes.LanesAreIndependent | crates/dchat-blockchain/src/block_hierarchy_legacy.rs:640-687 | Different lanes have different owners, so without credits to accounts that the other checks their transactions are independent. |
| Lanes.ParallelLanes | crates/dchat-blockchain/src/block_hierarchy_legacy.rs:556-687 | Every schedule of two miniblocks of different lanes without such credits ends as one after the other, each transaction with its solitary outcome. |
| Lanes.LanesCommute | crates/dchat-blockchain/src/block_hierarchy_legacy.rs:556-687 | Either order of two such miniblocks gives the same ledger and the same success and gas per transaction. |
| Lanes.CrossCreditMatters | crates/dchat-blockchain/src/block_hierarchy_legacy.rs:946-1019 | If a transaction credits an account that another owner's transaction checks, some ledger gives the latter another outcome afterwards. |
| Lanes.CommuteIff | crates/dchat-blockchain/src/block_hierarchy_legacy.rs:895-1078 | Two transactions of different owners commute in every ledger, outcomes included, if and only if neither credits an account whose existence the other checks. |
| Lanes.LanesCanClash | crates/dchat-blockchain/src/block_hierarchy_legacy.rs:556-687 | Two one-transaction miniblocks of different lanes with such a credit have a ledger in which running one first changes the other's outcome. |
| Miniblocks.ComputeBodyCommitments | crates/dchat-blockchain/src/block_hierarchy_legacy.rs:689-763 | Commits to the tree hashes of the encoded transactions and receipts, and to count, size and signature checks as exact sums cut at their field widths; fails exactly for a transaction outside the lane, with the error of the first, or for a receipt count that does not match. |
| Miniblocks.ScanTransactions | crates/dchat-blockchain/src/block_hierarchy_legacy.rs:698-723 | Saturating accumulation equals the exact totals cut at the maximum; leaves are in order. |
| Miniblocks.LeavesOfReceipts | crates/dchat-blockchain/src/block_hierarchy_legacy.rs:731-747 | One encoded leaf per receipt, in order. |
| Miniblocks.TxLeafLayout | crates/dchat-blockchain/src/block_hierarchy_legacy.rs:714-721 | A transaction leaf hashes tag, id, hash and type number, each ended by a zero byte, in this order. |
| Miniblocks.TypeNumbers | crates/dchat-blockchain/src/block_hierarchy_legacy.rs:612-622 | The seven types are numbered from one in the order of their declaration. |
| Miniblocks.ReceiptLeafLayout | crates/dchat-blockchain/src/block_hierarchy_legacy.rs:735-744 | A receipt leaf hashes tag, id, place, gas, success flag and error hash in this order. |
| Miniblocks.BodySizeIs | crates/dchat-blockchain/src/block_hierarchy_legacy.rs:704-708 | Each transaction counts with its payload, its hash and 64 bytes. |
| Miniblocks.DeliveryProofsCount | crates/dchat-blockchain/src/block_hierarchy_legacy.rs:710-712 | Signature checks are the number of places with a delivery proof. |
| Miniblocks.Miniblock.New | crates/dchat-blockchain/src/block_hierarchy_legacy.rs:461-497 | Accepted if and only if the body is in its lane, receipts match and the caps of 500 transactions and 512 KiB hold, else the first of these reasons is named; the new miniblock has zero state hashes and passes its own verification. |
| Miniblocks.Miniblock.VerifyBody | crates/dchat-blockchain/src/block_hierarchy_legacy.rs:514-546 | Succeeds exactly when the body commits to the header's five fields; names a field if and only if it is the first that differs. |
| Miniblocks.Miniblock.Execute | crates/dchat-blockchain/src/block_hierarchy_legacy.rs:556-609 | After success every receipt carries its transaction's id and place, succeeds exactly if the transaction did, with its gas and the zero hash, or with no gas and the tagged hash of the error text; gas is the sum of receipt gas, pre and post hashes are those of the fold, and verification succeeds. On failure the ledger is untouched and the error is that of the first transaction outside the lane. |
| Miniblocks.Miniblock.RunTransactions | crates/dchat-blockchain/src/block_hierarchy_legacy.rs:567-597 | The loop ends in the fold of all transactions, with a receipt per transaction that tells its outcome, in order, and their total gas. |
| Miniblocks.ReceiptsDocument | crates/dchat-blockchain/src/block_hierarchy_legacy.rs:567-597 | One receipt per transaction, in order: success flag, gas, place, id and error hash are those of the transaction's outcome in the ledger it meets. |
| Miniblocks.ReceiptDocuments | crates/dchat-blockchain/src/block_hierarchy_legacy.rs:570-595 | A receipt succeeds if and only if its outcome does; a success has the gas and the zero hash, a failure no gas and the tagged hash of its text. |
| Miniblocks.OutcomesAreDecided | crates/dchat-blockchain/src/block_hierarchy_legacy.rs:567-597 | Every failure in a run is an invalid transaction, so every error hash is that of such a text. |
| Miniblocks.ExecutionStep | crates/dchat-blockchain/src/block_hierarchy_legacy.rs:567-597 | Ledger, outcomes and receipts of a prefix extend by one transaction at a time. |
| BodyBinding.TxPreimageInjective | crates/dchat-blockchain/src/block_hierarchy_legacy.rs:714-721 | A transaction leaf's preimage determines id, hash and type, although the hash has no fixed length. |
| BodyBinding.ReceiptPreimageInjective | crates/dchat-blockchain/src/block_hierarchy_legacy.rs:735-744 | A receipt leaf's preimage determines the whole receipt. |
| BodyBinding.RootBindsLeaves | crates/dchat-blockchain/src/hash_merkle.rs:42-68 | Under the tagged node hash, equal roots of equally long lists mean equal leaves. |
| BodyBinding.RootIsNotZero | crates/dchat-blockchain/src/hash_merkle.rs:42-68 | The root of a non-empty list is never the zero hash that stands for absence. |
| BodyBinding.TxRootBindsLeaves | crates/dchat-blockchain/src/block_hierarchy_legacy.rs:702-749 | Two transaction lists of any lengths with one root have the same leaves, because tagged leaves are never nodes. |
| BodyBinding.TransactionsBound | crates/dchat-blockchain/src/block_hierarchy_legacy.rs:689-763 | One transaction root binds the number of transactions and every transaction's id, hash and type. |
| BodyBinding.ReceiptsBound | crates/dchat-blockchain/src/block_hierarchy_legacy.rs:689-763 | One receipts root binds every receipt. |
| BodyBinding.HeaderBindsBody | crates/dchat-blockchain/src/block_hierarchy_legacy.rs:514-546 | Two bodies that verify against one header have equally many transactions and agree on every transaction's identity and on every receipt, for any number of them. |
| BodyBinding.TxLeavesSeparated | crates/dchat-blockchain/src/canonical.rs:6-47 | Because the tags differ, no transaction leaf is ever an inner node or the filler. |
| BodyBinding.TxProofAcceptedIffPowerOfTwo | crates/dchat-blockchain/src/hash_merkle.rs:42-126 | Inclusion proofs of real transactions check against the header's root if and only if their number is a power of two. |
| BodyBinding.TxProofSound | crates/dchat-blockchain/src/hash_merkle.rs:16-68 | A transaction for which any proof at all is accepted against a header's root is one of the body's, by id, hash and type. |
| BodyBinding.PlainRootBinds | crates/dchat-blockchain/src/block_hierarchy_legacy.rs:793-823 | Equally long lists of miniblock hashes with one untagged root are equal. |
| BodyBinding.PlainRootForgetsLength | crates/dchat-blockchain/src/block_hierarchy_legacy.rs:793-823 | A remark on arbitrary hashes, not on header hashes: every list shares its untagged root with the list of its own inner nodes. |
| HeaderEncoding.HeaderPreimageInjective | crates/dchat-blockchain/src/block_hierarchy_legacy.rs:504-511 | The serialised, tagged header determines every field of the header. |
| HeaderEncoding.HeaderLayout | crates/dchat-blockchain/src/block_hierarchy_legacy.rs:504-511 | The order, width and tag of the twelve header fields in the hashed byte string. |
| HeaderEncoding.HeaderIsNotNode | crates/dchat-blockchain/src/block_hierarchy_legacy.rs:504-511 | No header's preimage is that of an untagged inner node. |
| SubblockRoots.RootBindsHashes | crates/dchat-blockchain/src/block_hierarchy_legacy.rs:440-449 | Equal subblock roots mean equal lists of header hashes, whatever their lengths. |
| SubblockRoots.SubblockRootBindsHeaders | crates/dchat-blockchain/src/block_hierarchy_legacy.rs:440-511 | A subblock's root determines the number of its miniblocks and every field of every header. |
| SubblockRoots.SubblockRootBindsContents | crates/dchat-blockchain/src/block_hierarchy_legacy.rs:440-546 | Two subblocks with one root whose bodies match their headers hold the same transactions and receipts in every miniblock. |
| Subblocks.Subblock.AddMiniblock | crates/dchat-blockchain/src/block_hierarchy_legacy.rs:403-424 | Appends exactly when there is room, the index is next and the lane is new; a refusal changes nothing, and each of the three reasons is named if and only if it is the first that applies. |
| Subblocks.Subblock.CalculateMerkleRoot | crates/dchat-blockchain/src/block_hierarchy_legacy.rs:440-449 | The root is the untagged tree hash over the header hashes in order. |
| Subblocks.BuildIsWellFormed | crates/dchat-blockchain/src/block_hierarchy_legacy.rs:403-424 | After any attempts: at most ten miniblocks, position equals index, lanes distinct, all sharded. |
| Subblocks.AccountIsolation | crates/dchat-blockchain/src/block_hierarchy_legacy.rs:403-687 | Two transactions of a subblock with one partition key lie in the same miniblock. |
| Subblocks.ScheduleRuns | crates/dchat-blockchain/src/block_hierarchy_legacy.rs:556-609 | Any interleaving of any number of pairwise independent lists ends in the ledger of running them in turn, and interleaves their solitary traces. |
| Subblocks.SubblockRunsInParallel | crates/dchat-blockchain/src/block_hierarchy_legacy.rs:403-687 | All miniblocks of a built subblock may run interleaved in any way with the sequential ledger and each transaction's solitary outcome. |
| Packer.FillSubblock | crates/dchat-blockchain/src/chain_synchronizer.rs:564-590 | One subblock takes exactly the next 2500 transactions, or all that are left, every miniblock but the last full. |
| Packer.Distribute | crates/dchat-blockchain/src/chain_synchronizer.rs:553-605 | Flattening gives exactly the first 25000 transactions in order; at most ten subblocks of at most ten miniblocks of at most 250 transactions, indices counting up, and only the very last miniblock and subblock may be short. |
| Packer.PackedSizes | crates/dchat-blockchain/src/chain_synchronizer.rs:553-605 | All but the last miniblock contribute 250 transactions each. |
| Packer.ShapeInNumbers | crates/dchat-blockchain/src/chain_synchronizer.rs:553-605 | In every packing each subblock but the last has ten miniblocks, and each miniblock but the very last 250 transactions. |
| Packer.MiniblocksDetermined | crates/dchat-blockchain/src/chain_synchronizer.rs:564-590 | Two packings of one transaction list into the miniblocks of a subblock are equal. |
| Packer.SubblocksDetermined | crates/dchat-blockchain/src/chain_synchronizer.rs:553-605 | The packing of a whole block is unique: two packed lists of subblocks with the same transactions are equal. |
| Faucet.Service.MaybeResetDaily | crates/dchat-blockchain/src/faucet.rs:131-142 | A day after the last reset the counters clear and addresses older than 48 hours are forgotten; before that nothing happens. |
| Faucet.Service.RequestTokens | crates/dchat-blockchain/src/faucet.rs:251-359 | Refusals come in the order daily limit, IP limit, cooldown, each decided by the counts of the current day and naming its limit or end; a grant adds one to the day and to its own IP alone, and stamps its address alone; a refusal counts for nothing. |
| Faucet.RequestMeans | crates/dchat-blockchain/src/faucet.rs:251-359 | The reference transition behind the results on runs answers and counts every request in exactly this way. |
| Faucet.ResetMeans | crates/dchat-blockchain/src/faucet.rs:131-142 | A new day starts with no grants, to nobody, and remembers an address unless it is two days old. |
| Faucet.FullIpIsRefused | crates/dchat-blockchain/src/faucet.rs:279-295 | While the daily limit is open, an IP is refused for its limit if and only if it has reached that limit today. |
| Faucet.Service.CheckEligibility | crates/dchat-blockchain/src/faucet.rs:490-548 | Answers availability with the amount, or the first reason in the order cooldown, IP limit, daily limit with the next time; changes nothing. |
| Faucet.NextTimeIsExact | crates/dchat-blockchain/src/faucet.rs:490-548 | The next time in a refusal is the first at which its reason no longer holds. |
| Faucet.Service.CleanupOldEntries | crates/dchat-blockchain/src/faucet.rs:551-561 | Exactly the addresses older than the cleanup interval are forgotten. |
| Faucet.EligibilityPredictsRequest | crates/dchat-blockchain/src/faucet.rs:490-548 | A request is granted if and only if its address is eligible after the daily reset and the IP limit is not zero. |
| Faucet.EligibilityCanBeStale | crates/dchat-blockchain/src/faucet.rs:490-548 | A day after the limit was reached the check refuses what a request would get. |
| Faucet.TimelineStep | crates/dchat-blockchain/src/faucet.rs:131-142 | Resets stay a day apart and every grant lies in its own period. |
| Faucet.CountersStep | crates/dchat-blockchain/src/faucet.rs:268-343 | Each event keeps the counts within the limits, the sum of IP counts at most the daily count, and the total equal to the drip per grant. |
| Faucet.RunInvariant | crates/dchat-blockchain/src/faucet.rs:131-343 | Both invariants hold in every state of every run with a clock that does not go back. |
| Faucet.IpCountersStep | crates/dchat-blockchain/src/faucet.rs:268-343 | Each event keeps every IP counter equal to the number of grants to that IP in the current period, and every period within the IP limit. |
| Faucet.IpBound | crates/dchat-blockchain/src/faucet.rs:131-343 | Over every run, no period has more grants to one IP than the limit allows, and the counter of every IP is the number of its grants in the current period. |
| Faucet.DayBound | crates/dchat-blockchain/src/faucet.rs:131-295 | Any half-open day of any run has at most twice the daily limit of grants. |
| Faucet.DayBoundIsAttained | crates/dchat-blockchain/src/faucet.rs:131-343 | For every limit some run grants exactly twice the limit within a day, so the bound is the best possible. |
| Faucet.CooldownInvariant | crates/dchat-blockchain/src/faucet.rs:297-332 | With late purges, every past grant is remembered or over, and two grants to one address are a cooldown apart. |
| Faucet.EarlySweep | crates/dchat-blockchain/src/faucet.rs:551-561 | A cleanup interval below the cooldown has a run with two grants too close. |
| Faucet.EarlyReset | crates/dchat-blockchain/src/faucet.rs:131-142 | A cooldown above 48 hours has such a run through the daily reset. |
| Faucet.CooldownIffPurgesAreLate | crates/dchat-blockchain/src/faucet.rs:131-561 | All runs respect the cooldown if and only if it is at most 48 hours and at most the cleanup interval, or nothing is ever granted. |
| BlockSync.NewestKeeps | crates/dchat-blockchain/src/currency_chain_block_sync.rs:843-855 | Eviction keeps the entries with the greatest numbers, unchanged, as many as allowed. |
| BlockSync.AddedIsBounded | crates/dchat-blockchain/src/currency_chain_block_sync.rs:843-855 | Adding a block keeps the cache within its size, keyed by number, and adds at most that number. |
| BlockSync.EvictionEndsIff | crates/dchat-blockchain/src/currency_chain_block_sync.rs:846-851 | The eviction loop ends if and only if the cache may hold at least one block. |
| BlockSync.Manager.EvictOldest | crates/dchat-blockchain/src/currency_chain_block_sync.rs:846-851 | The loop leaves the newest entries with room for one more, or an empty cache that it passes over for ever if the size is zero. |
| BlockSync.Manager.AddBlockToCache | crates/dchat-blockchain/src/currency_chain_block_sync.rs:843-855 | Ends exactly when no read guard is held and the size is positive; then the cache is the newest entries plus the block, within its limit, every entry under its own number. |
| BlockSync.ChainStakeWeight | crates/dchat-blockchain/src/currency_chain_block_sync.rs:617-634 | The saturating loop returns the exact stake sum cut at the u64 maximum. |
| BlockSync.WeightIgnoresOrder | crates/dchat-blockchain/src/currency_chain_block_sync.rs:617-634 | Branches with the same headers in any order weigh the same. |
| BlockSync.WeightIsMonotone | crates/dchat-blockchain/src/currency_chain_block_sync.rs:617-634 | Extending a branch never lowers its weight. |
| BlockSync.StringLeIsTotalOrder | crates/dchat-blockchain/src/currency_chain_block_sync.rs:550-611 | The tie-break on hashes compares any two and equates only equal ones. |
| BlockSync.ChoiceIgnoresLabels | crates/dchat-blockchain/src/currency_chain_block_sync.rs:550-611 | Exchanging the labels picks the same branch if and only if weight and first hash do not both tie. |
| BlockSync.NeverReorganisesOntoNothing | crates/dchat-blockchain/src/currency_chain_block_sync.rs:550-611 | The branch that a reorganisation adopts is never empty. |
| BlockSync.NearestCached | crates/dchat-blockchain/src/currency_chain_block_sync.rs:535-547 | The ancestor found is cached or zero, and nothing between it and the start is cached. |
| BlockSync.Manager.FindCommonAncestor | crates/dchat-blockchain/src/currency_chain_block_sync.rs:535-547 | The loop finds that nearest cached number below the block. |
| BlockSync.Manager.FetchCompetingChainHeaders | crates/dchat-blockchain/src/currency_chain_block_sync.rs:506-532 | Collects, oldest first, a branch: each header is the highest cached one below the next that is its parent or names the same parent as sought, and below the lowest there is no further match. |
| BlockSync.WalkIsBranch | crates/dchat-blockchain/src/currency_chain_block_sync.rs:506-532 | The headers collected between two numbers form such a branch, with none skipped. |
| BlockSync.WalkStaysInCache | crates/dchat-blockchain/src/currency_chain_block_sync.rs:506-532 | Every collected header has a cached number between the ancestor and the confirmed height. |
| BlockSync.Manager.WeighFork | crates/dchat-blockchain/src/currency_chain_block_sync.rs:469-576 | The competing branch is found and weighed: the conflicting block wins with the greater stake and loses with the smaller; on equal stake it wins over no branch, or exactly if its hash is the branch's first hash or comes alphabetically before it. |
| BlockSync.HeavierBranchWins | crates/dchat-blockchain/src/currency_chain_block_sync.rs:550-611 | The choice between a block and a branch is the one by stake, and on equal stake the one by the first differing character of the hashes. |
| BlockSync.StringLeMeans | crates/dchat-blockchain/src/currency_chain_block_sync.rs:566-576 | The tie-break holds if and only if the hashes are equal or the first ends, or has the smaller character, where they first differ. |
| BlockSync.ReorganisedKeys | crates/dchat-blockchain/src/currency_chain_block_sync.rs:718-763 | A reorganisation puts back only numbers it took out, so the cache never grows. |
| BlockSync.Manager.Reorganize | crates/dchat-blockchain/src/currency_chain_block_sync.rs:718-763 | Waits for ever under a read guard, changing nothing; otherwise every answered number of the branch holds the fetched block, every other number above the ancestor up to the old height is gone, all others are as before, and the height is that of the last header. |
| BlockSync.ReorganisedIs | crates/dchat-blockchain/src/currency_chain_block_sync.rs:718-763 | What a reorganisation leaves at any number, in terms of the cache before, the branch and the answers. |
| BlockSync.Manager.HandleFork | crates/dchat-blockchain/src/currency_chain_block_sync.rs:469-611 | If the block beats the branch by stake and hash, cache and height stay. If the branch wins and no read guard is held, the height becomes that of its last header and every number holds what the branch says; under a guard the call does not end. The bound is kept. |
| BlockSync.Manager.ProcessNewBlock | crates/dchat-blockchain/src/currency_chain_block_sync.rs:436-453 | Ends exactly when no read guard is held and the size is positive; the block is then cached and pending. Without a cached parent of another hash nothing else moves but the oldest entries; with one, the height stays if the block beats the branch and becomes that of the branch's last header otherwise. |
| BlockSync.Manager.CheckForForks | crates/dchat-blockchain/src/currency_chain_block_sync.rs:766-794 | Under its own read guard the call ends if and only if no recent link is broken or the block at the highest one wins; cache and height never change, and a call that does not end keeps its guard. |
| BlockSync.CheckEndsIff | crates/dchat-blockchain/src/currency_chain_block_sync.rs:766-794 | The fork check ends if and only if no recent link is broken or there is a highest broken link whose block wins. |
| BlockSync.Manager.FindBrokenLink | crates/dchat-blockchain/src/currency_chain_block_sync.rs:766-794 | Finds the highest number within the threshold whose cached block does not name its cached predecessor, all links above it being sound; finds nothing only if all are sound. |
| BlockSync.Manager.ConfirmPendingBlocks | crates/dchat-blockchain/src/currency_chain_block_sync.rs:797-820 | Announces the longest prefix of blocks that lie at least the threshold below the confirmed height, modulo 2^32, in order, and keeps the rest pending. |
| BlockSync.Manager.InitialSync | crates/dchat-blockchain/src/currency_chain_block_sync.rs:196-230 | On an empty cache with every fetch answered, exactly the last blocks that fit remain; the bound is kept in any case, and the call ends exactly if every answered block can be cached. |
| BlockSync.Manager.SyncBlock | crates/dchat-blockchain/src/currency_chain_block_sync.rs:205-225 | One fetched block extends the contiguous run, dropping the lowest number when full. |
| BlockSync.SyncStep | crates/dchat-blockchain/src/currency_chain_block_sync.rs:196-230 | Adding the next number to a full contiguous run loses exactly its lowest number. |
| BlockSync.AncestorIsTheDisputedParent | crates/dchat-blockchain/src/currency_chain_block_sync.rs:456-547 | When a fork is detected, the ancestor found is the parent whose hash the block disputes. |
| BlockSync.ForkBeyondTipKeepsCache | crates/dchat-blockchain/src/currency_chain_block_sync.rs:469-611 | A fork above the confirmed height is won by the new block, whatever the stakes. |
| BlockSync.ForkKeepsHeight | crates/dchat-blockchain/src/currency_chain_block_sync.rs:550-763 | Resolving a fork never raises the confirmed height and keeps entries under their numbers. |
| BlockSync.HeightNeverRises | crates/dchat-blockchain/src/currency_chain_block_sync.rs:436-820 | Over any run of arriving blocks, fork checks and confirmations the confirmed height never rises. |
| BlockSync.UnconfirmedKeeps | crates/dchat-blockchain/src/currency_chain_block_sync.rs:797-820 | A block at or above the height stops the confirmation loop, with everything behind it. |
| BlockSync.NeverConfirmed | crates/dchat-blockchain/src/currency_chain_block_sync.rs:436-820 | With a threshold of at least one, a pending block at or above the height is never confirmed in any run, nor is anything behind it. |
| BlockSync.LaterBlocksStayPending | crates/dchat-blockchain/src/currency_chain_block_sync.rs:436-820 | Every block that is queued at or above the height of the initial sync stays pending for good. |
| BlockSync.StuckCheckFreezesCache | crates/dchat-blockchain/src/currency_chain_block_sync.rs:766-794 | Once a fork check waits for itself, no later event changes the cache or the height. |
| FeeOrchestrator.Split | crates/dchat-blockchain/src/fee_distribution.rs:1072-1123 | Validators, relays and insurance get their configured shares rounded down; with shares of at most one hundred percent nothing is lost or created. |
| FeeOrchestrator.SplitConservesIff | crates/dchat-blockchain/src/fee_distribution.rs:1072-1123 | Every fee is shared out without gain or loss if and only if the configured shares make up at most the whole. |
| FeeOrchestrator.NoBurnIff | crates/dchat-blockchain/src/currency_chain.rs:889-897 | A transfer burns nothing if and only if the 64-bit product of amount and rate stays below one token; without wrap-around the burn is the rounded share. |
| FeeOrchestrator.Orchestrator.TransferTokens | crates/dchat-blockchain/src/currency_chain.rs:874-946 | Succeeds exactly for a known sender with enough balance; a refusal changes nothing. |
| FeeOrchestrator.Orchestrator.DebitForProtocol | crates/dchat-blockchain/src/currency_chain.rs:1134-1177 | The payer loses the amount and the pools gain it, or nothing happens. |
| FeeOrchestrator.Orchestrator.ChargeGasFee | crates/dchat-blockchain/src/fee_orchestrator.rs:352-508 | A standing charge is not repeated; a new one debits and records, or nothing happens. |
| FeeOrchestrator.Orchestrator.RefundFee | crates/dchat-blockchain/src/fee_orchestrator.rs:561-619 | Only an uncommitted charge is paid back, and only once. |
| FeeOrchestrator.Orchestrator.Commit | crates/dchat-blockchain/src/fee_orchestrator.rs:513-556 | A refunded charge cannot be committed; nothing but the status changes. |
| FeeOrchestrator.Orchestrator.Hold | crates/dchat-blockchain/src/fee_orchestrator.rs:718-778 | An existing escrow is returned untouched; a new one is recorded only after the transfer. |
| FeeOrchestrator.Orchestrator.Release | crates/dchat-blockchain/src/fee_orchestrator.rs:781-818 | Only a held escrow is released, and only if the transfer succeeds. |
| FeeOrchestrator.Orchestrator.Refund | crates/dchat-blockchain/src/fee_orchestrator.rs:821-859 | Only a held escrow is returned, and only if the transfer succeeds. |
| FeeOrchestrator.Orchestrator.RefundAll | src/fee_gateway.rs:1081-1120 | Every escrow of the operation is tried in map order, failures being skipped. |
| FeeOrchestrator.TransferConserves | crates/dchat-blockchain/src/currency_chain.rs:874-946 | Wallets, pools and burned tokens together stay the same. |
| FeeOrchestrator.ChargeKeeps | crates/dchat-blockchain/src/fee_orchestrator.rs:352-508 | A charge keeps the supply and leaves every pool able to pay all refunds it owes. |
| FeeOrchestrator.RefundKeeps | crates/dchat-blockchain/src/fee_orchestrator.rs:561-619 | With pools that cover what they owe, a refund takes back exactly what was paid in: the saturating subtraction never cuts. |
| FeeOrchestrator.CommitKeeps | crates/dchat-blockchain/src/fee_orchestrator.rs:513-556 | Committing keeps supply and cover. |
| FeeOrchestrator.RefundEscrowsKeeps | src/fee_gateway.rs:1081-1120 | Returning escrows moves money between wallets and the burn only. |
| FeeOrchestrator.RefundEscrowsSettle | src/fee_gateway.rs:1081-1120 | No escrow that was settled before is touched again. |
| FeeOrchestrator.HoldThenRefund | crates/dchat-blockchain/src/fee_orchestrator.rs:718-859 | Through one account a hold can be returned if and only if that account covers the burn, and the payer is then short of one burn. |
| FeeOrchestrator.UnknownAccountSettlesNothing | crates/dchat-core/src/types.rs:24-28 | A freshly drawn account without a wallet can neither release nor return. |
| FeeGateway.StorageFeeIsLeast | src/fee_gateway.rs:1162-1170 | Up to 64 KiB storage is free; a blob pays for the least number of whole megabytes that holds it, exactly if the product fits 64 bits and modulo 2^64 in any case. |
| FeeGateway.GasFeeIsCapped | crates/dchat-blockchain/src/fee_orchestrator.rs:83-88 | The gas fee is never above the cap, equals the base fee of the request's own kind plus the fee per byte of content if and only if that sum is within the cap, is the cap otherwise, and never falls when the content grows. |
| FeeGateway.RequiredIsTheSumIff | src/fee_gateway.rs:574-583 | The amount the balance is compared with is the sum of all fees if and only if that sum fits 64 bits. |
| FeeGateway.Gateway.SendDirectMessage | src/fee_gateway.rs:499-811 | A first send that gets past the charge is on record with its payer and the direct base fee plus the fee per byte, cut at the cap. State, order of effects and outcome are those of the reference run, for every answer of the chains; a payload of another kind is refused without effect. |
| FeeGateway.Gateway.PostToChannel | src/fee_gateway.rs:814-1036 | The same for channel posts with the channel base fee; they have no size limit and no refund when waiting fails. |
| FeeGateway.ChargeOnRecord | src/fee_gateway.rs:569-614 | In every state without a standing charge, a send with any effect leaves a charge of exactly the capped fee on record for its payer, whatever happens after. |
| FeeGateway.Gateway.UndoOperation | src/fee_gateway.rs:1123-1155 | Gas and escrows are refunded as far as possible and a recorded operation becomes refunded. |
| FeeGateway.Gateway.CompleteAfterFinality | src/fee_gateway.rs:681-764 | Storage payment, release, storing and commitment, stopping at the first that fails. |
| FeeGateway.StoredOnlyAfterEverything | src/fee_gateway.rs:546-764 | An escrow is released only on the trace charge, hold, submission, finality, blob payment if due, release; content is stored at its end if and only if the storage accepts it, and in no other run. Every delivered run has this trace. |
| FeeGateway.DeliveredIsFinal | src/fee_gateway.rs:546-555 | Repeating a delivered operation changes nothing and has no effects. |
| FeeGateway.DoneForSameOperation | crates/dchat-blockchain/src/fee_orchestrator.rs:622-635 | A delivery answers exactly the later requests with the same payer, kind, payload and nonce, whatever their relay; every other request is answered as if it had not happened. |
| FeeGateway.SendIsSound | src/fee_gateway.rs:499-1036 | One send creates and destroys no token, keeps refunds covered and touches no settled escrow. |
| FeeGateway.SendKeepsPaid | src/fee_gateway.rs:499-1036 | Stored content always has a released escrow of its operation. |
| FeeGateway.RunsAreSound | src/fee_gateway.rs:499-1155 | Over any sequence of sends supply and cover are kept, no escrow is settled twice (so never both released and returned), and stored content is paid for. |
| FeeCosts.RefundsOnlyThisEscrow | src/fee_gateway.rs:1081-1120 | With at most one open escrow of an operation, whatever settled ones it has, the refund loop is one attempt at that escrow, in any order and however often it is listed. |
| FeeCosts.HoldingMoves | src/fee_gateway.rs:585-614 | Up to the hold the payer pays exactly what is still due, every other wallet but the hold account is untouched, and this succeeds if and only if the payer's wallet covers it. |
| FeeCosts.RefundLoopCosts | src/fee_gateway.rs:1081-1120 | The refund loop pays exactly for the escrows it returns, in any order and however often one is listed. |
| FeeCosts.ReturnedIff | src/fee_gateway.rs:1081-1120 | Of any number of open escrows, exactly those are returned that are listed and whose own drawn account can pay. |
| FeeCosts.SoleEscrowCost | src/fee_gateway.rs:585-674 | With no other open escrow, the payer's balance after a failure before finality, and the exact condition under which a first attempt costs nothing. |
| FeeCosts.FailedHoldCost | src/fee_gateway.rs:598-609 | If the escrow cannot be created the payer's balance only gains a charge of the operation that stood before, in every state. |
| FeeCosts.UnrefundedCost | src/fee_gateway.rs:920-924 | A failure without refund leaves gas charged and the message fee on hold, in every state. |
| FeeCosts.UnreleasedCost | src/fee_gateway.rs:681-689 | A failed release keeps what was still due and the payment for storage, in every state. |
| FeeCosts.RepeatCost | src/fee_gateway.rs:585-689 | A repeat after a failed release pays for storage again and, if it draws another relay, a second message fee: both escrows are then held. |
| FeeCosts.DeliveredCost | src/fee_gateway.rs:585-764 | A delivered send costs exactly what was still due and the payment for storage. |
| FeeCosts.PoolsGain | src/fee_gateway.rs:1160-1195 | A run that pays for storage adds to each pool its rounded share of the gas still due and to the storage bonds the storage fee, in total exactly what was paid. |
| FeeCosts.FailedSendCost | src/fee_gateway.rs:585-674 | For every state and every account drawn, a failure before finality costs the message fee if the drawn relay had no escrow, and gives back an earlier charge and, less the burn, every escrow that the refund returns. |
| FeeCosts.DeliveredIff | src/fee_gateway.rs:519-764 | In every state a send is delivered if and only if it is admitted, the payer covers each step, the message becomes final, the drawn relay's escrow is absent or held, and the release account holds the amount when its turn comes. |
| FeeCosts.OutcomeIs | src/fee_gateway.rs:499-1036 | Which of the ten outcomes a send has, in every state and for all answers: the first failing condition of size, earlier success, balance check, gas, hold, submission, finality, storage payment and release. |
| FeeCosts.FailureIsMarked | src/fee_gateway.rs:1123-1155 | A refunded failure marks an operation that had been recorded, delivery records success, and every other record stays. |
| FeeCosts.AdmittedCovers | src/fee_gateway.rs:574-583 | While the sum of the fees does not wrap, passing the balance check means that the payer covers every step. |
| FeeCosts.CheckSufficesIff | src/fee_gateway.rs:574-583 | For a message of admissible size, every state that passes the balance check covers every step if and only if the sum of the fees fits 64 bits. |
| FeeCosts.DeliveryPossibleIff | src/fee_gateway.rs:534-764 | Once some other wallet could pay, an admitted operation can be delivered if and only if the drawn relay's escrow is absent or held. |
| FeeCosts.ReturnedRelayMustBeReplaced | src/fee_gateway.rs:534-764 | After a return no answer delivers the operation through that relay, and some answer delivers it through another. |
| FeeCosts.CommitNeverFails | src/fee_gateway.rs:725-727 | The charge always stands when it is committed, in every state. |
| FeeCosts.DeliveredIsCommitted | src/fee_gateway.rs:725-727 | After a delivery the charge is committed and no refund takes it back. |
| FeeCosts.PaymentsNeverFail | src/fee_gateway.rs:585-686 | While the sum of the fees does not wrap, neither the gas charge nor the blob payment can fail after the balance check. |
| FeeCosts.SendKeepsRecords | src/fee_gateway.rs:499-1155 | Charges and escrows stay under the ids that name their payer and relay. |
| FeeCosts.ReleasedOnlyByDelivery | src/fee_gateway.rs:499-1155 | An escrow becomes released only by the delivery of its own operation through its own relay. |
| FeeCosts.SuccessIsDelivery | src/fee_gateway.rs:499-1155 | Success is recorded by delivery alone and never taken back. |
| FeeCosts.DeliveredAtMostOnce | src/fee_gateway.rs:499-1155 | Over any sequence of sends at most one escrow per operation is released, and each operation is stored at most once. |
| FeeCosts.FundsFit | crates/dchat-blockchain/src/currency_chain.rs:874-1106 | If all tokens together fit 64 bits, every wallet and pool does after any run, so no checked addition fails and no unchecked one wraps. |
| FeeCosts.CompletesIff | src/fee_gateway.rs:619-764 | With a standing charge a run completes from the hold if and only if the message becomes final and both the blob payment and the release succeed. |
| FeeCosts.FreshAccountNeverDelivers | src/fee_gateway.rs:1045-1076 | In every state, if the release account has no wallet and is not the account of the hold, nothing is stored or delivered. |
| RelayWorkStore.CommitKeepsConsistent | src/relay_work_store.rs:229-260 | A commit keeps equal keys, seen ids equal to recorded ids, and events in their own epoch. |
| RelayWorkStore.CommitKeepsUniqueIffUnseen | src/relay_work_store.rs:229-260 | A commit keeps ids unique if and only if the id is unseen at that moment. |
| RelayWorkStore.CleanupKeeps | src/relay_work_store.rs:340-360 | A sweep keeps consistency and uniqueness, removes what is too old and leaves the rest as it was. |
| RelayWorkStore.InterleavingsStayConsistent | src/relay_work_store.rs:200-260 | Under every interleaving of checks, commits, epoch changes and sweeps the maps stay consistent and the epoch never goes back. |
| RelayWorkStore.UndisturbedRecording | src/relay_work_store.rs:229-260 | The check and the commit of a call, with nothing between them, record a new event once and a known one not at all. |
| RelayWorkStore.UndisturbedEpochChange | src/relay_work_store.rs:200-219 | Setting an epoch and sweeping, with nothing between them, move forward and drop what is too old, or do nothing for an epoch that is not later. |
| RelayWorkStore.RaceRecordsTwice | src/relay_work_store.rs:229-260 | Two checks before two commits record one id twice. |
| RelayWorkStore.CalmRunsAreUnique | src/relay_work_store.rs:229-260 | If no call is started for an id and epoch in flight, ids are unique and every event in flight is unseen and alone, in every run. |
| RelayWorkStore.RaceLeadsToDuplicate | src/relay_work_store.rs:229-260 | Any run with such a start can reach a duplicate merely by letting calls finish. |
| RelayWorkStore.UniqueIffCalm | src/relay_work_store.rs:229-260 | No moment of a run can be followed, by calls finishing, by a duplicate if and only if no call was started for an id and epoch in flight. |
| RelayWorkStore.RecordableIff | src/relay_work_store.rs:229-260 | After any run a further call for an id passes its check if and only if the id was never recorded or its epoch was swept since. |
| RelayWorkStore.SweptIsRecordedAgain | src/relay_work_store.rs:229-360 | Once its epoch was swept, an event is recorded again, in an epoch below the cutoff. |
| RelayWorkStore.IdsRoundTrip | src/relay_work_store.rs:104-190 | The ids of an epoch are restored exactly from their hex texts in any order. |
| RelayWorkStore.SaveLoadRoundTrip | src/relay_work_store.rs:104-190 | Whatever order was written, loading restores the store exactly. |
| RelayWorkStore.RelayWorkEventStore.RecordEvent | src/relay_work_store.rs:229-260 | Without interference an event is recorded exactly when its id is new in the epoch of 1800 blocks it belongs to; it is then the last of that epoch, its id is seen there, and all other epochs are untouched. Uniqueness is kept. |
| RelayWorkStore.RelayWorkEventStore.SetCurrentEpoch | src/relay_work_store.rs:200-219 | The epoch only moves forward; then nothing older than the retention window remains and a writable file restores exactly the new state. |
| RelayWorkStore.RelayWorkEventStore.CleanupOldEpochs | src/relay_work_store.rs:340-360 | The sweep loop keeps exactly the epochs within the retention window, and removes the seen ids of those it drops. |
| RelayWorkStore.RelayWorkEventStore.EventsPerRelay | src/relay_work_store.rs:320-329 | Exactly the relays with events are counted, correctly, and the counts sum to the number of events. |
| RelayWorkStore.CountRelayCounts | src/relay_work_store.rs:320-329 | A relay's count is the number of places where its events stand. |
| RelayWorkStore.RelayWorkEventStore.SaveState | src/relay_work_store.rs:155-190 | Writes every epoch once with its events and hex ids, in an arbitrary order. |
| RelayWorkStore.RelayWorkEventStore.SaveSeen | src/relay_work_store.rs:168-174 | Every seen epoch is written once, with the hex texts of exactly its ids. |
| RelayWorkStore.RelayWorkEventStore.EncodeIds | src/relay_work_store.rs:169-173 | The texts written are the hex forms of exactly these ids. |
| RelayWorkStore.RelayWorkEventStore.LoadState | src/relay_work_store.rs:104-152 | The store becomes what the persisted lists say, later entries winning and malformed ids dropped. |
| RelayWorkStore.LastEntryCounts | src/relay_work_store.rs:104-152 | Of several persisted entries for one epoch the last one counts, for events and for ids. |
| RelayWorkStore.RelayWorkEventStore.RestoreIds | src/relay_work_store.rs:129-141 | Exactly the ids whose text is 32 bytes of hex are restored. |
| OfflineQueue.LightClient.QueueOperation | src/light_client.rs:1152-1172 | Appends with no attempts exactly when there is room, else reports a full queue and changes nothing. |
| OfflineQueue.LightClient.Send | src/light_client.rs:761-772 | When ready the queue is untouched; otherwise the operation is queued, and that counts as success. |
| OfflineQueue.LightClient.DrainOfflineQueue | src/light_client.rs:1174-1268 | Undisturbed and wherever it ends, the drain sends, keeps or fails every operation by that rule; it leaves the kept ones in order and reports the sent and the failed ones. While not ready every send counts as failed. |
| OfflineQueue.LightClient.Attempt | src/light_client.rs:1185-1259 | An operation is sent exactly if it can be and the send succeeds, kept with one more attempt exactly if that is below five, and failed otherwise; while not ready a sendable one goes to the back of the queue with a new id if there is room. This is one step of the iteration that the lemmas on drains reason about. |
| OfflineQueue.NothingLost | src/light_client.rs:1174-1268 | Every queued operation ends exactly once as sent, reported failed or kept. |
| OfflineQueue.AllDisposed | src/light_client.rs:1185-1259 | In a whole drain every operation is sent, kept or failed by its own send, its attempts and the presence of a fee gateway alone. |
| OfflineQueue.KeptHaveOneMoreRetry | src/light_client.rs:1236-1263 | A kept operation is its former self with one more attempt, below five. |
| OfflineQueue.RetriesBounded | src/light_client.rs:1152-1268 | In every state, whoever enqueues meanwhile, no queued operation has had five attempts. |
| OfflineQueue.NotReadyOnlyRotates | src/light_client.rs:695-772 | While not ready, an iteration on a sendable operation leaves the queue length unchanged if and only if the queue is within its limit; above it the operation leaves the queue. |
| OfflineQueue.NotReadyDrainEndsIff | src/light_client.rs:695-703 | Undisturbed, a drain while not ready ends if and only if nothing sendable is among the last operations that fit the limit, for queues of any length. |
| OfflineQueue.DrainConserves | src/light_client.rs:1174-1268 | In any state and with others enqueueing, what is queued or failed plus what is done with equals what was there plus what was added. |
| OfflineQueue.CanOverflowIff | src/light_client.rs:1174-1268 | Some course of events makes a drain end with the queue above its limit if and only if something sendable is among the last operations that fit, or more can be retried than the limit allows. |
| OfflineQueue.WithinLimitCanOverflowIff | src/light_client.rs:1174-1268 | For a queue within its limit that is so if and only if anything sendable is queued. |
| OfflineQueue.QuietDrainKeepsLimit | src/light_client.rs:1174-1268 | Without concurrent enqueueing the limit is kept. |
| OfflineQueue.LimitCanBreak | src/light_client.rs:1262-1263 | An instance: one enqueue during a failing send leaves two operations in a queue of limit one. |
| SpeechQueue.InsertIsStableSort | crates/dchat-accessibility/src/tts.rs:327-341 | Inserting into the stable sort gives the stable sort of the longer submission list. |
| SpeechQueue.StableSortFront | crates/dchat-accessibility/src/tts.rs:389-405 | The front is the oldest of the most urgent, and the rest is the sort of the rest. |
| SpeechQueue.StableSortLength | crates/dchat-accessibility/src/tts.rs:327-341 | Nothing that was submitted is lost or doubled by ordering. |
| SpeechQueue.DrainIsStableSort | crates/dchat-accessibility/src/tts.rs:439-450 | Draining the queue speaks the stable sort of what was submitted. |
| SpeechQueue.TtsEngine.Speak | crates/dchat-accessibility/src/tts.rs:327-341 | The queue stays the stable sort of what is waiting, now with the new utterance; disabled, nothing happens. |
| SpeechQueue.TtsEngine.SpeakUrgent | crates/dchat-accessibility/src/tts.rs:349-368 | An interruptible current utterance stops; the urgent one joins the order. |
| SpeechQueue.TtsEngine.StartNext | crates/dchat-accessibility/src/tts.rs:389-405 | The oldest of the most urgent becomes current, exactly when enabled and something waits. |
| SpeechQueue.TtsEngine.Pause | crates/dchat-accessibility/src/tts.rs:408-413 | Only speaking becomes paused; order and idleness are kept. |
| SpeechQueue.TtsEngine.Resume | crates/dchat-accessibility/src/tts.rs:416-421 | Only paused becomes speaking; order and idleness are kept. |
| SpeechQueue.TtsEngine.Stop | crates/dchat-accessibility/src/tts.rs:424-430 | Nothing is current and the engine is idle; the queue stays. |
| SpeechQueue.TtsEngine.ClearQueue | crates/dchat-accessibility/src/tts.rs:433-436 | Nothing waits any more; the current utterance stays. |
| SpeechQueue.TtsEngine.FinishCurrent | crates/dchat-accessibility/src/tts.rs:439-450 | The next in stable order starts at once, or the engine is idle. |
| SpeechQueue.TtsEngine.SetEnabled | crates/dchat-accessibility/src/tts.rs:315-318 | Switching speech on or off keeps the order. |

## Left out

- BlockSync.Manager.CheckForForks: only the cache's lock is modelled, with the guards that calls in progress hold; the other locks and the fairness of waiting are not.
- OfflineQueue.LightClient.DrainOfflineQueue: asks for a state in which an undisturbed drain ends, which OfflineQueue.NotReadyDrainEndsIff characterises; concurrent use is covered by the lemmas about iterations.
- FeeOrchestrator.Orchestrator.TransferTokens: wallets are unbounded numbers, which FeeCosts.FundsFit justifies only while all tokens together fit 64 bits; transaction records are not modelled.
- FeeOrchestrator.Orchestrator.ChargeGasFee: a pool that overflows after the debit is not modelled, on the same condition, nor is the consensus record of the fee.
- FeeOrchestrator.Split: shares above 10000 basis points each, which the 16-bit configuration fields would allow.
- Miniblocks.Miniblock.New: signatures are not modelled; the clock reading is an argument.
- Subblocks: the layers above (blocks, finality proofs, validator signatures).
- Block hashes, blake3, Ed25519 and BLS signatures, encryption and key derivation: abstract functions or absent.
- JSON and serde formats other than the bincode form of a miniblock header: persisted and transmitted records are taken as parsed values.
- RPC, HTTP, WebSocket, libp2p, SQLite and file access: arbitrary answers as arguments.
- Fee consensus records, cleanup of expired charges and escrows, staking and tokenomics.
- Relay selection and the reconstruction of a response from a recorded operation in the fee gateway: easy members.
- cross_chain.rs, chat_chain.rs, consensus_types.rs, service contexts: lookups, counters and one-step transitions.
- Epoch ticker, drift monitor and anchor tasks: timers around shallow state.
- Speech markup, voices, luminance arithmetic, command-line handlers, benches and mock servers.
