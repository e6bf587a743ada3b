/**
 Chat-chain transactions and the ledger they run on
 (`block_hierarchy_legacy.rs`, `WorldState`).

 A transaction's payload is modelled after deserialisation: for every type that the code
 parses, the payload is either the parsed record or the parser's error text.
 */
module Transactions {
  import opened Bytes

  datatype RegisterUserTx = RegisterUserTx(userId: Bytes, publicKeyLen: nat, initialReputation: int)
  datatype SendDirectMessageTx = SendDirectMessageTx(senderId: Bytes, payloadSize: U64, relayNodeId: Option<Bytes>)
  datatype CreateChannelTx = CreateChannelTx(creatorId: Bytes, stakeAmount: Option<U64>)
  datatype PostToChannelTx = PostToChannelTx(senderId: Bytes, payloadSize: U64)
  datatype JoinChannelTx = JoinChannelTx(userId: Bytes)
  datatype SubmitDeliveryProofTx = SubmitDeliveryProofTx(relayPeerId: Bytes, recipientId: Bytes, rewardAmount: U64)

  /** The transaction type together with what parsing the payload for that type gives. */
  datatype Call =
    | RegisterUser(register: Result<RegisterUserTx, string>)
    | SendDirectMessage(message: Result<SendDirectMessageTx, string>)
    | CreateChannel(channel: Result<CreateChannelTx, string>)
    | PostToChannel(post: Result<PostToChannelTx, string>)
    | JoinChannel(join: Result<JoinChannelTx, string>)
    | UpdateProfile
    | SubmitDeliveryProof(delivery: Result<SubmitDeliveryProofTx, string>)

  datatype Transaction = Transaction(txId: Uuid, call: Call, payloadLen: nat, txHash: Bytes)

  type Uuid = b: Bytes | |b| == 16 witness [0, 0, 0, 0, 0, 0, 0, 0, 0, 0, 0, 0, 0, 0, 0, 0]

  datatype BlockError =
    | InvalidTransaction(message: string)
    | LaneViolation(txId: Uuid, txLane: U16, lane: U16)
    | DuplicateLane
    | MiniblockLimitExceeded
    | MiniblockBodyMissing
    | CommitmentMismatch(field: string)

  /** `tx_type_id`. */
  function TypeId(call: Call): Byte {
    match call
    case RegisterUser(_) => 1
    case SendDirectMessage(_) => 2
    case CreateChannel(_) => 3
    case PostToChannel(_) => 4
    case JoinChannel(_) => 5
    case UpdateProfile => 6
    case SubmitDeliveryProof(_) => 7
  }

  /** The partition key of `lane_for_transaction`: the transaction's primary account. */
  function LaneKey(tx: Transaction): Result<Bytes, BlockError> {
    match tx.call
    case RegisterUser(Ok(t)) => Ok(t.userId)
    case SendDirectMessage(Ok(t)) => Ok(t.senderId)
    case CreateChannel(Ok(t)) => Ok(t.creatorId)
    case PostToChannel(Ok(t)) => Ok(t.senderId)
    case JoinChannel(Ok(t)) => Ok(t.userId)
    case UpdateProfile => Ok(tx.txHash)
    case SubmitDeliveryProof(Ok(t)) => Ok(t.recipientId)
    case RegisterUser(Err(e)) => Err(InvalidTransaction(e))
    case SendDirectMessage(Err(e)) => Err(InvalidTransaction(e))
    case CreateChannel(Err(e)) => Err(InvalidTransaction(e))
    case PostToChannel(Err(e)) => Err(InvalidTransaction(e))
    case JoinChannel(Err(e)) => Err(InvalidTransaction(e))
    case SubmitDeliveryProof(Err(e)) => Err(InvalidTransaction(e))
  }

  /** The account whose balance the transaction may credit as a relay. */
  function CreditedRelay(tx: Transaction): Option<Bytes> {
    match tx.call
    case SendDirectMessage(Ok(t)) => t.relayNodeId
    case SubmitDeliveryProof(Ok(t)) => Some(t.relayPeerId)
    case _ => None
  }

  /** Decimal digits of a number in an error message. */
  function Decimal(n: nat): string {
    if n < 10 then [(n as char) + '0'] else Decimal(n / 10) + [((n % 10) as char) + '0']
  }

  function DecimalValue(s: string): nat {
    if s == [] then 0
    else
      var n := |s| - 1;
      10 * DecimalValue(s[..n]) + if '0' <= s[n] <= '9' then (s[n] - '0') as nat else 0
  }

  /** The text is made of digits and denotes the number. */
  lemma {:induction false} DecimalRoundTrip(n: nat)
    ensures DecimalValue(Decimal(n)) == n
    ensures forall i | 0 <= i < |Decimal(n)| :: '0' <= Decimal(n)[i] <= '9'
  {
    if n < 10 {
      assert Decimal(n)[..0] == [];
    } else {
      DecimalRoundTrip(n / 10);
      var s := Decimal(n);
      assert s[..|s| - 1] == Decimal(n / 10);
    }
  }
}

module WorldState {
  import opened Bytes
  import opened Canonical
  import opened Transactions
  import opened MapSums
  import opened StateEncoding

  const BASE_GAS: U64 := 21000
  const RELAY_REWARD: U64 := 100

  type Balances = Column

  /** A snapshot of the ledger. */
  datatype World = World(
    balances: Balances,
    nonces: Balances,
    storage: Storage,
    reputation: map<Bytes, int>,
    stakes: map<Bytes, U64>,
    stateRoot: Hash)

  const NEW_WORLD: World := World(map[], map[], map[], map[], map[], ZERO_HASH)

  /** `compute_hash`: stakes and reputation do not enter the digest. */
  ghost function StateHash(h: Digest, w: World): Hash {
    h(StatePreimage(w.balances, w.nonces, w.storage))
  }

  type Outcome = Result<U64, BlockError>

  // ---------- what one transaction does, as a reference ----------

  /**
   What a successful transaction changes: the owner's balance, stake and reputation, and one
   credit, to a relay or to a new account.
   */
  datatype Delta = Delta(
    balance: Option<(Bytes, U64)>,
    stake: Option<(Bytes, U64)>,
    reputation: Option<(Bytes, int)>,
    credit: Option<(Bytes, U64)>,
    gas: U64)

  function Balance(w: World, account: Bytes): Option<U64> {
    var key := HexEncode(account);
    if key in w.balances then Some(w.balances[key]) else None
  }

  /** The account in whose name the transaction acts. */
  function Owner(tx: Transaction): Option<Bytes> {
    match tx.call
    case RegisterUser(Ok(t)) => Some(t.userId)
    case SendDirectMessage(Ok(t)) => Some(t.senderId)
    case CreateChannel(Ok(t)) => Some(t.creatorId)
    case PostToChannel(Ok(t)) => Some(t.senderId)
    case _ => None
  }

  /** The account that must exist for the transaction to succeed. */
  function Checked(tx: Transaction): Option<Bytes> {
    match tx.call
    case SendDirectMessage(Ok(t)) => Some(t.senderId)
    case CreateChannel(Ok(t)) => Some(t.creatorId)
    case PostToChannel(Ok(t)) => Some(t.senderId)
    case _ => None
  }

  /** The decision, from the checked balance alone; registering an account credits it with nothing. */
  function Plan(tx: Transaction, owner: Option<U64>): Result<Delta, BlockError> {
    match tx.call
    case RegisterUser(Ok(t)) =>
      if t.publicKeyLen < 32 then Err(InvalidTransaction("Invalid public key length"))
      else Ok(Delta(None, None, Some((t.userId, t.initialReputation)), Some((t.userId, 0)), BASE_GAS + 10000))
    case SendDirectMessage(Ok(t)) =>
      if owner.None? then Err(InvalidTransaction("Sender not registered"))
      else
        var credit := if t.relayNodeId.Some? then Some((t.relayNodeId.value, RELAY_REWARD)) else None;
        Ok(Delta(None, None, None, credit, BASE_GAS + t.payloadSize / 100))
    case CreateChannel(Ok(t)) =>
      if owner.None? then Err(InvalidTransaction("Creator not registered"))
      else if t.stakeAmount.None? then Ok(Delta(None, None, None, None, BASE_GAS + 50000))
      else if owner.value < t.stakeAmount.value then
        Err(InvalidTransaction("Insufficient stake: " + Decimal(owner.value) + " < " + Decimal(t.stakeAmount.value)))
      else
        Ok(Delta(Some((t.creatorId, owner.value - t.stakeAmount.value)), Some((t.creatorId, t.stakeAmount.value)),
                 None, None, BASE_GAS + 50000))
    case PostToChannel(Ok(t)) =>
      if owner.None? then Err(InvalidTransaction("Sender not registered"))
      else Ok(Delta(None, None, None, None, BASE_GAS + t.payloadSize / 100))
    case JoinChannel(_) => Ok(Delta(None, None, None, None, BASE_GAS + 5000))
    case UpdateProfile => Ok(Delta(None, None, None, None, BASE_GAS + 3000))
    case SubmitDeliveryProof(Ok(t)) =>
      Ok(Delta(None, None, None, Some((t.relayPeerId, t.rewardAmount)), BASE_GAS + 8000))
    case RegisterUser(Err(e)) => Err(InvalidTransaction(e))
    case SendDirectMessage(Err(e)) => Err(InvalidTransaction(e))
    case CreateChannel(Err(e)) => Err(InvalidTransaction(e))
    case PostToChannel(Err(e)) => Err(InvalidTransaction(e))
    case SubmitDeliveryProof(Err(e)) => Err(InvalidTransaction(e))
  }

  function Decide(w: World, tx: Transaction): Result<Delta, BlockError> {
    Plan(tx, if Checked(tx).Some? then Balance(w, Checked(tx).value) else None)
  }

  function GetU64<K>(m: map<K, U64>, k: K): U64 {
    if k in m then m[k] else 0
  }

  function AddTo<K>(m: map<K, U64>, k: K, amount: U64): map<K, U64> {
    m[k := WrappingAdd(GetU64(m, k), amount)]
  }

  function PutBalance(m: Balances, change: Option<(Bytes, U64)>): Balances {
    if change.None? then m else m[HexEncode(change.value.0) := change.value.1]
  }

  function Credit(m: Balances, change: Option<(Bytes, U64)>): Balances {
    if change.None? then m else AddTo(m, HexEncode(change.value.0), change.value.1)
  }

  function AddStake(m: map<Bytes, U64>, change: Option<(Bytes, U64)>): map<Bytes, U64> {
    if change.None? then m else AddTo(m, change.value.0, change.value.1)
  }

  function PutReputation(m: map<Bytes, int>, change: Option<(Bytes, int)>): map<Bytes, int> {
    if change.None? then m else m[change.value.0 := change.value.1]
  }

  ghost function Commit(h: Digest, w: World, d: Delta): World {
    var w' := w.(
      balances := Credit(PutBalance(w.balances, d.balance), d.credit),
      stakes := AddStake(w.stakes, d.stake),
      reputation := PutReputation(w.reputation, d.reputation));
    w'.(stateRoot := StateHash(h, w'))
  }

  ghost function Apply(h: Digest, w: World, tx: Transaction): World {
    match Decide(w, tx)
    case Ok(d) => Commit(h, w, d)
    case Err(_) => w
  }

  function OutcomeOf(w: World, tx: Transaction): Outcome {
    match Decide(w, tx)
    case Ok(d) => Ok(d.gas)
    case Err(e) => Err(e)
  }

  /** The fold of `apply_transaction`. */
  ghost function Run(h: Digest, w: World, txs: seq<Transaction>): World
    decreases |txs|
  {
    if txs == [] then w else Run(h, Apply(h, w, txs[0]), txs[1..])
  }

  ghost function Outcomes(h: Digest, w: World, txs: seq<Transaction>): (os: seq<Outcome>)
    ensures |os| == |txs|
    decreases |txs|
  {
    if txs == [] then [] else [OutcomeOf(w, txs[0])] + Outcomes(h, Apply(h, w, txs[0]), txs[1..])
  }

  // ---------- what each type of transaction does, field by field ----------

  /** The balance of an account, nothing for an unknown one. */
  function Funds(w: World, account: Bytes): nat {
    if HexEncode(account) in w.balances then w.balances[HexEncode(account)] else 0
  }

  /** Only the balance of this account may differ, and it exists afterwards. */
  ghost predicate OnlyBalanceOf(w: World, w': World, account: Bytes) {
    var key := HexEncode(account);
    && w'.balances.Keys == w.balances.Keys + {key}
    && forall k | k in w.balances && k != key :: w'.balances[k] == w.balances[k]
  }

  ghost predicate Rejected(w: World, w': World, r: Outcome, message: string) {
    w' == w && r == Err(InvalidTransaction(message))
  }

  /** Registration needs a key of 32 bytes; it sets the reputation and opens an account if there is none. */
  ghost predicate Registers(w: World, w': World, t: RegisterUserTx, r: Outcome) {
    if t.publicKeyLen < 32 then Rejected(w, w', r, "Invalid public key length")
    else
      && r == Ok(31000)
      && w'.reputation.Keys == w.reputation.Keys + {t.userId} && w'.reputation[t.userId] == t.initialReputation
      && (forall k | k in w.reputation && k != t.userId :: w'.reputation[k] == w.reputation[k])
      && OnlyBalanceOf(w, w', t.userId) && Funds(w', t.userId) == Funds(w, t.userId)
      && w'.stakes == w.stakes
  }

  /** A message needs its sender's account; it costs by size and pays its relay, if any, 100 tokens. */
  ghost predicate Messages(w: World, w': World, t: SendDirectMessageTx, r: Outcome) {
    if HexEncode(t.senderId) !in w.balances then Rejected(w, w', r, "Sender not registered")
    else
      && r == Ok(21000 + t.payloadSize / 100)
      && (t.relayNodeId.None? ==> w'.balances == w.balances)
      && (t.relayNodeId.Some? ==>
            && OnlyBalanceOf(w, w', t.relayNodeId.value)
            && Funds(w', t.relayNodeId.value) == (Funds(w, t.relayNodeId.value) + 100) % U64_MODULUS)
      && w'.stakes == w.stakes && w'.reputation == w.reputation
  }

  /** A channel needs its creator's account and covers its stake, which moves from balance to stakes. */
  ghost predicate CreatesChannel(w: World, w': World, t: CreateChannelTx, r: Outcome) {
    var stake := if t.stakeAmount.Some? then t.stakeAmount.value else 0;
    if HexEncode(t.creatorId) !in w.balances then Rejected(w, w', r, "Creator not registered")
    else if Funds(w, t.creatorId) < stake then
      Rejected(w, w', r, "Insufficient stake: " + Decimal(Funds(w, t.creatorId)) + " < " + Decimal(stake))
    else
      && r == Ok(71000)
      && OnlyBalanceOf(w, w', t.creatorId) && Funds(w', t.creatorId) == Funds(w, t.creatorId) - stake
      && (t.stakeAmount.None? ==> w'.stakes == w.stakes)
      && (t.stakeAmount.Some? ==>
            && w'.stakes.Keys == w.stakes.Keys + {t.creatorId}
            && w'.stakes[t.creatorId] == (Lookup(w.stakes, t.creatorId) + stake) % U64_MODULUS
            && forall k | k in w.stakes && k != t.creatorId :: w'.stakes[k] == w.stakes[k])
      && w'.reputation == w.reputation
  }

  ghost predicate OnlyCosts(w: World, w': World, r: Outcome, gas: nat) {
    r == Ok(gas) && w'.balances == w.balances && w'.stakes == w.stakes && w'.reputation == w.reputation
  }

  ghost predicate Delivers(w: World, w': World, t: SubmitDeliveryProofTx, r: Outcome) {
    && r == Ok(29000)
    && OnlyBalanceOf(w, w', t.relayPeerId) && Funds(w', t.relayPeerId) == (Funds(w, t.relayPeerId) + t.rewardAmount) % U64_MODULUS
    && w'.stakes == w.stakes && w'.reputation == w.reputation
  }

  /** The effect of a transaction on a ledger, by type. */
  ghost predicate Effect(w: World, w': World, tx: Transaction, r: Outcome) {
    match tx.call
    case RegisterUser(Ok(t)) => Registers(w, w', t, r)
    case SendDirectMessage(Ok(t)) => Messages(w, w', t, r)
    case CreateChannel(Ok(t)) => CreatesChannel(w, w', t, r)
    case PostToChannel(Ok(t)) =>
      if HexEncode(t.senderId) !in w.balances then Rejected(w, w', r, "Sender not registered")
      else OnlyCosts(w, w', r, 21000 + t.payloadSize / 100)
    case JoinChannel(_) => OnlyCosts(w, w', r, 26000)
    case UpdateProfile => OnlyCosts(w, w', r, 24000)
    case SubmitDeliveryProof(Ok(t)) => Delivers(w, w', t, r)
    case RegisterUser(Err(e)) => Rejected(w, w', r, e)
    case SendDirectMessage(Err(e)) => Rejected(w, w', r, e)
    case CreateChannel(Err(e)) => Rejected(w, w', r, e)
    case PostToChannel(Err(e)) => Rejected(w, w', r, e)
    case SubmitDeliveryProof(Err(e)) => Rejected(w, w', r, e)
  }

  /** After a success the state root is the digest of the new columns; nonces and storage never move. */
  ghost predicate Settled(h: Digest, w: World, w': World, r: Outcome) {
    && w'.nonces == w.nonces && w'.storage == w.storage
    && (r.Ok? ==> w'.stateRoot == h(StatePreimage(w'.balances, w'.nonces, w'.storage)))
    && (r.Err? ==> w' == w && r.error.InvalidTransaction?)
  }

  lemma {:induction false} CreditIs(m: Balances, account: Bytes, amount: U64)
    ensures var m', key := Credit(m, Some((account, amount))), HexEncode(account);
            && m'.Keys == m.Keys + {key} && m'[key] == ((if key in m then m[key] else 0) + amount) % U64_MODULUS
            && forall k | k in m && k != key :: m'[k] == m[k]
  {
    hide HexEncode;
  }

  lemma {:induction false} StakeIs(m: map<Bytes, U64>, account: Bytes, amount: U64)
    ensures var m' := AddStake(m, Some((account, amount)));
            && m'.Keys == m.Keys + {account} && m'[account] == (Lookup(m, account) + amount) % U64_MODULUS
            && forall k | k in m && k != account :: m'[k] == m[k]
  {
  }

  lemma {:induction false} RegisterMeans(h: Digest, w: World, tx: Transaction)
    requires tx.call.RegisterUser?
    ensures Effect(w, Apply(h, w, tx), tx, OutcomeOf(w, tx))
  {
    hide HexEncode, StateHash, Credit, WrappingAdd;
    if tx.call.register.Ok? {
      CreditIs(w.balances, tx.call.register.value.userId, 0);
    }
  }

  lemma {:induction false} MessageMeans(h: Digest, w: World, tx: Transaction)
    requires tx.call.SendDirectMessage?
    ensures Effect(w, Apply(h, w, tx), tx, OutcomeOf(w, tx))
  {
    hide HexEncode, StateHash, AddTo, WrappingAdd;
    if tx.call.message.Ok? && tx.call.message.value.relayNodeId.Some? {
      CreditIs(w.balances, tx.call.message.value.relayNodeId.value, RELAY_REWARD);
    }
  }

  lemma {:induction false} ChannelMeans(h: Digest, w: World, tx: Transaction)
    requires tx.call.CreateChannel?
    ensures Effect(w, Apply(h, w, tx), tx, OutcomeOf(w, tx))
  {
    hide HexEncode, Decimal, StateHash, AddTo, WrappingAdd;
    if tx.call.channel.Ok? && tx.call.channel.value.stakeAmount.Some? {
      StakeIs(w.stakes, tx.call.channel.value.creatorId, tx.call.channel.value.stakeAmount.value);
    }
  }

  lemma {:induction false} DeliveryMeans(h: Digest, w: World, tx: Transaction)
    requires tx.call.SubmitDeliveryProof?
    ensures Effect(w, Apply(h, w, tx), tx, OutcomeOf(w, tx))
  {
    hide HexEncode, StateHash, Credit, WrappingAdd;
    if tx.call.delivery.Ok? {
      CreditIs(w.balances, tx.call.delivery.value.relayPeerId, tx.call.delivery.value.rewardAmount);
    }
  }

  lemma {:induction false} OthersMean(h: Digest, w: World, tx: Transaction)
    requires tx.call.PostToChannel? || tx.call.JoinChannel? || tx.call.UpdateProfile?
    ensures Effect(w, Apply(h, w, tx), tx, OutcomeOf(w, tx))
  {
    hide HexEncode, StateHash, AddTo;
  }

  lemma {:induction false} ApplySettles(h: Digest, w: World, tx: Transaction)
    ensures Settled(h, w, Apply(h, w, tx), OutcomeOf(w, tx))
  {
    hide StatePreimage, Credit, PutBalance, AddStake, PutReputation;
    OnlyInvalid(tx, if Checked(tx).Some? then Balance(w, Checked(tx).value) else None);
    hide Plan, Balance, Checked;
  }

  lemma OnlyInvalid(tx: Transaction, owner: Option<U64>)
    ensures Plan(tx, owner).Err? ==> Plan(tx, owner).error.InvalidTransaction?
  {
    hide Decimal;
  }

  /** Every transaction does to every ledger what its type says, and nothing else. */
  lemma {:induction false} TransactionMeans(h: Digest, w: World, tx: Transaction)
    ensures Effect(w, Apply(h, w, tx), tx, OutcomeOf(w, tx))
    ensures Settled(h, w, Apply(h, w, tx), OutcomeOf(w, tx))
  {
    hide Effect, Settled, Apply, OutcomeOf;
    ApplySettles(h, w, tx);
    match tx.call {
      case RegisterUser(_) => RegisterMeans(h, w, tx);
      case SendDirectMessage(_) => MessageMeans(h, w, tx);
      case CreateChannel(_) => ChannelMeans(h, w, tx);
      case SubmitDeliveryProof(_) => DeliveryMeans(h, w, tx);
      case PostToChannel(_) => OthersMean(h, w, tx);
      case JoinChannel(_) => OthersMean(h, w, tx);
      case UpdateProfile => OthersMean(h, w, tx);
    }
  }

  // ---------- the ledger object ----------

  class Ledger {
    var balances: Balances
    var nonces: Balances
    var storage: Storage
    var reputation: map<Bytes, int>
    var stakes: map<Bytes, U64>
    var stateRoot: Hash

    function View(): World
      reads this
    {
      World(balances, nonces, storage, reputation, stakes, stateRoot)
    }

    constructor ()
      ensures View() == NEW_WORLD
    {
      balances, nonces, storage, reputation, stakes := map[], map[], map[], map[], map[];
      stateRoot := ZERO_HASH;
    }

    /** The three maps, each in key order whatever order they iterate in, hashed as one byte string. */
    method ComputeHash(h: Digest) returns (r: Hash)
      ensures r == StateHash(h, View())
    {
      hide ColumnBytes, StorageBytes;
      var b := EncodeColumn(balances);
      var n := EncodeColumn(nonces);
      var s := EncodeStorage(storage);
      r := h(b + n + s);
    }

    /** `apply_transaction`: the ledger changes as the type of the transaction says, or not at all. */
    method ApplyTransaction(h: Digest, tx: Transaction) returns (r: Outcome)
      modifies this
      ensures Effect(old(View()), View(), tx, r) && Settled(h, old(View()), View(), r)
      ensures View() == Apply(h, old(View()), tx) && r == OutcomeOf(old(View()), tx)
    {
      hide *;
      TransactionMeans(h, View(), tx);
      r := ApplyCall(h, tx);
    }

    /** The branches of `apply_transaction`: every early return leaves the ledger as it was. */
    method ApplyCall(h: Digest, tx: Transaction) returns (r: Outcome)
      modifies this
      ensures View() == Apply(h, old(View()), tx)
      ensures r == OutcomeOf(old(View()), tx)
    {
      hide HexEncode, Decimal, StateHash;
      var gasUsed: U64;
      match tx.call {
        case RegisterUser(parsed) =>
          if parsed.Err? {
            return Err(InvalidTransaction(parsed.error));
          }
          var t := parsed.value;
          if t.publicKeyLen < 32 {
            return Err(InvalidTransaction("Invalid public key length"));
          }
          reputation := reputation[t.userId := t.initialReputation];
          var key := HexEncode(t.userId);
          if key !in balances {
            balances := balances[key := 0];
          }
          assert balances == Credit(old(balances), Some((t.userId, 0)));
          gasUsed := BASE_GAS + 10000;

        case SendDirectMessage(parsed) =>
          if parsed.Err? {
            return Err(InvalidTransaction(parsed.error));
          }
          var t := parsed.value;
          if HexEncode(t.senderId) !in balances {
            return Err(InvalidTransaction("Sender not registered"));
          }
          var sizeGas := t.payloadSize / 100;
          if t.relayNodeId.Some? {
            Reward(t.relayNodeId.value, RELAY_REWARD);
          }
          gasUsed := BASE_GAS + sizeGas;

        case CreateChannel(parsed) =>
          if parsed.Err? {
            return Err(InvalidTransaction(parsed.error));
          }
          var t := parsed.value;
          var creator := HexEncode(t.creatorId);
          if creator !in balances {
            return Err(InvalidTransaction("Creator not registered"));
          }
          if t.stakeAmount.Some? {
            var amount := t.stakeAmount.value;
            var balance := GetU64(balances, creator);
            if balance < amount {
              return Err(InvalidTransaction("Insufficient stake: " + Decimal(balance) + " < " + Decimal(amount)));
            }
            balances := balances[creator := balance - amount];
            stakes := stakes[t.creatorId := WrappingAdd(GetU64(stakes, t.creatorId), amount)];
          }
          gasUsed := BASE_GAS + 50000;

        case PostToChannel(parsed) =>
          if parsed.Err? {
            return Err(InvalidTransaction(parsed.error));
          }
          var t := parsed.value;
          if HexEncode(t.senderId) !in balances {
            return Err(InvalidTransaction("Sender not registered"));
          }
          gasUsed := BASE_GAS + t.payloadSize / 100;

        case JoinChannel(_) =>
          gasUsed := BASE_GAS + 5000;

        case UpdateProfile =>
          gasUsed := BASE_GAS + 3000;

        case SubmitDeliveryProof(parsed) =>
          if parsed.Err? {
            return Err(InvalidTransaction(parsed.error));
          }
          var t := parsed.value;
          Reward(t.relayPeerId, t.rewardAmount);
          gasUsed := BASE_GAS + 8000;
      }
      stateRoot := ComputeHash(h);
      r := Ok(gasUsed);
    }

    /** Create the relay's balance entry if need be, then add the reward to it. */
    method Reward(relay: Bytes, amount: U64)
      modifies this`balances
      ensures balances == Credit(old(balances), Some((relay, amount)))
    {
      var key := HexEncode(relay);
      if key !in balances {
        balances := balances[key := 0];
      }
      balances := balances[key := WrappingAdd(balances[key], amount)];
    }
  }

  // ---------- conservation ----------

  /** All tokens: balances and stakes. */
  ghost function Supply(w: World): nat {
    Sum(w.balances) + Sum(w.stakes)
  }

  /** Tokens that an outcome creates. */
  function Minted(tx: Transaction, o: Outcome): nat {
    if o.Err? then 0
    else
      match tx.call
      case SendDirectMessage(Ok(t)) => if t.relayNodeId.Some? then RELAY_REWARD else 0
      case SubmitDeliveryProof(Ok(t)) => t.rewardAmount
      case _ => 0
  }

  function TotalMinted(txs: seq<Transaction>, os: seq<Outcome>): nat
    requires |txs| == |os|
  {
    if txs == [] then 0 else Minted(txs[0], os[0]) + TotalMinted(txs[1..], os[1..])
  }

  function Carry(x: nat, y: nat): nat {
    if x + y <= U64_MAX then 0 else 1
  }

  /** How many 64-bit additions of a committed change lose their carry. */
  function DeltaCarries(w: World, d: Delta): nat {
    (if d.credit.None? then 0
     else Carry(GetU64(PutBalance(w.balances, d.balance), HexEncode(d.credit.value.0)), d.credit.value.1))
    + (if d.stake.None? then 0 else Carry(GetU64(w.stakes, d.stake.value.0), d.stake.value.1))
  }

  function Carries(w: World, tx: Transaction): nat {
    match Decide(w, tx)
    case Err(_) => 0
    case Ok(d) => DeltaCarries(w, d)
  }

  ghost function TotalCarries(h: Digest, w: World, txs: seq<Transaction>): nat
    decreases |txs|
  {
    if txs == [] then 0 else Carries(w, txs[0]) + TotalCarries(h, Apply(h, w, txs[0]), txs[1..])
  }

  lemma {:induction false} AddToConserves<K>(m: map<K, U64>, k: K, amount: U64)
    ensures Sum(AddTo(m, k, amount)) + U64_MODULUS * Carry(GetU64(m, k), amount) == Sum(m) + amount
  {
    SumUpdate(m, k, WrappingAdd(GetU64(m, k), amount));
  }

  function Amount(change: Option<(Bytes, U64)>): nat {
    if change.None? then 0 else change.value.1
  }

  /** The balance that a change replaces. */
  function Replaced(w: World, change: Option<(Bytes, U64)>): nat {
    if change.None? then 0 else GetU64(w.balances, HexEncode(change.value.0))
  }

  lemma {:induction false} DeltaConserves(h: Digest, w: World, d: Delta)
    ensures Supply(Commit(h, w, d)) + U64_MODULUS * DeltaCarries(w, d) + Replaced(w, d.balance)
         == Supply(w) + Amount(d.balance) + Amount(d.credit) + Amount(d.stake)
  {
    hide Sum, HexEncode, StateHash, Carry, AddTo;
    BalancesConserve(w, d);
    if d.stake.Some? {
      AddToConserves(w.stakes, d.stake.value.0, d.stake.value.1);
    }
  }

  lemma {:induction false} BalancesConserve(w: World, d: Delta)
    ensures var put := PutBalance(w.balances, d.balance);
            Sum(Credit(put, d.credit)) + Replaced(w, d.balance)
            + U64_MODULUS * (if d.credit.None? then 0 else Carry(GetU64(put, HexEncode(d.credit.value.0)), d.credit.value.1))
            == Sum(w.balances) + Amount(d.balance) + Amount(d.credit)
  {
    hide Sum, HexEncode, Carry, AddTo;
    var put := PutBalance(w.balances, d.balance);
    if d.balance.Some? {
      SumUpdate(w.balances, HexEncode(d.balance.value.0), d.balance.value.1);
    }
    if d.credit.Some? {
      AddToConserves(put, HexEncode(d.credit.value.0), d.credit.value.1);
    }
  }

  lemma {:induction false} PlanMints(w: World, tx: Transaction)
    requires Decide(w, tx).Ok?
    ensures var d := Decide(w, tx).value;
            Amount(d.balance) + Amount(d.credit) + Amount(d.stake) == Replaced(w, d.balance) + Minted(tx, OutcomeOf(w, tx))
  {
    hide HexEncode, Decimal;
  }

  lemma {:induction false} CommitConserves(h: Digest, w: World, tx: Transaction)
    requires Decide(w, tx).Ok?
    ensures Supply(Apply(h, w, tx)) + U64_MODULUS * Carries(w, tx) == Supply(w) + Minted(tx, OutcomeOf(w, tx))
  {
    hide Supply, DeltaCarries, Commit, Plan, Minted, Replaced, Amount;
    DeltaConserves(h, w, Decide(w, tx).value);
    PlanMints(w, tx);
  }

  /**
   Conservation over any sequence: the supply grows by exactly what is minted, up to 2^64 for
   every addition that wrapped.
   */
  lemma {:induction false} Conservation(h: Digest, w: World, txs: seq<Transaction>)
    ensures Supply(Run(h, w, txs)) + U64_MODULUS * TotalCarries(h, w, txs)
         == Supply(w) + TotalMinted(txs, Outcomes(h, w, txs))
    decreases |txs|
  {
    if txs != [] {
      var w1 := Apply(h, w, txs[0]);
      Conservation(h, w1, txs[1..]);
      assert Outcomes(h, w, txs)[1..] == Outcomes(h, w1, txs[1..]);
      hide Sum;
      if Decide(w, txs[0]).Ok? {
        CommitConserves(h, w, txs[0]);
      }
    }
  }

  /** If supply and mint fit a u64, no addition on the way can wrap. */
  lemma {:induction false} NoWrapWhenSupplyFits(h: Digest, w: World, txs: seq<Transaction>)
    requires Supply(w) + TotalMinted(txs, Outcomes(h, w, txs)) <= U64_MAX
    ensures TotalCarries(h, w, txs) == 0
    ensures Supply(Run(h, w, txs)) == Supply(w) + TotalMinted(txs, Outcomes(h, w, txs))
  {
    Conservation(h, w, txs);
  }

  /** No account ever disappears, and nothing but balances, stakes and reputation moves. */
  ghost predicate Extends(w: World, w': World) {
    && w.balances.Keys <= w'.balances.Keys && w.stakes.Keys <= w'.stakes.Keys
    && w.reputation.Keys <= w'.reputation.Keys
    && w'.nonces == w.nonces && w'.storage == w.storage
  }

  lemma {:induction false} CommitExtends(h: Digest, w: World, d: Delta)
    ensures Extends(w, Commit(h, w, d))
  {
    hide HexEncode, StateHash, WrappingAdd;
  }

  lemma {:induction false} AccountsPersist(h: Digest, w: World, txs: seq<Transaction>)
    ensures Extends(w, Run(h, w, txs))
    decreases |txs|
  {
    hide Decide, Commit;
    if txs != [] {
      if Decide(w, txs[0]).Ok? {
        CommitExtends(h, w, Decide(w, txs[0]).value);
      }
      AccountsPersist(h, Apply(h, w, txs[0]), txs[1..]);
    }
  }
}
