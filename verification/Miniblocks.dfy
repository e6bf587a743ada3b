/**
 Miniblocks: a header that commits to a body, and execution that recomputes the commitments
 (`block_hierarchy_legacy.rs`).
 */
module Miniblocks {
  import opened Bytes
  import opened Canonical
  import opened Transactions
  import opened WorldState
  import opened Lanes
  import HashMerkle

  const MAX_TXS: nat := 500
  const MAX_BODY_BYTES: nat := 512 * 1024
  const MAX_SIGCHECKS: nat := 500
  const MAX_MINIBLOCKS: nat := 10

  datatype TxReceipt = TxReceipt(txId: Uuid, txIndex: U32, gasUsed: U64, success: bool, errorHash: Hash)

  datatype MiniblockBody = MiniblockBody(transactions: seq<Transaction>, receipts: seq<TxReceipt>)

  datatype Commitments = Commitments(txRoot: Hash, receiptsRoot: Hash, txCount: U16, bodyBytes: U32, sigchecks: U16)

  /** A point in time since the epoch. */
  datatype Timestamp = Timestamp(secs: U64, nanos: U32)

  datatype MiniblockHeader = MiniblockHeader(
    index: U16,
    timestamp: Timestamp,
    lane: U16,
    commitments: Commitments,
    preStateHash: Hash,
    postStateHash: Hash,
    gasUsed: U64)

  // ---------- leaves ----------

  function TxParts(tx: Transaction): seq<Bytes> {
    [tx.txId, tx.txHash, [TypeId(tx.call)]]
  }

  function TxPreimage(tx: Transaction): Bytes {
    PartsPreimage(TAG_TX_LEAF, TxParts(tx))
  }

  function ReceiptParts(r: TxReceipt): seq<Bytes> {
    [r.txId, LittleEndian(r.txIndex, 4), LittleEndian(r.gasUsed, 8), [if r.success then 1 else 0], r.errorHash]
  }

  function ReceiptPreimage(r: TxReceipt): Bytes {
    PartsPreimage(TAG_RECEIPT_LEAF, ReceiptParts(r))
  }

  /** A transaction leaf hashes the tag, id, hash and type number, each ended by a zero byte. */
  lemma {:induction false} TxLeafLayout(tx: Transaction)
    ensures TxPreimage(tx) == Utf8("dchat/miniblock/tx_leaf/v1") + [0] + (tx.txId + [0] + tx.txHash + [0] + [TypeId(tx.call), 0])
  {
    hide Utf8, TypeId;
    var parts := TxParts(tx);
    var none: seq<Bytes> := [];
    assert parts[1..][1..] == parts[2..] && parts[2..][1..] == none;
    assert Terminated(parts[2..]) == [TypeId(tx.call)] + [0] + [];
    assert Terminated(parts[1..]) == tx.txHash + [0] + Terminated(parts[2..]);
  }

  /** Transaction types are numbered from one in the order of their declaration. */
  lemma TypeNumbers(tx: Transaction)
    ensures match tx.call
            case RegisterUser(_) => TypeId(tx.call) == 1
            case SendDirectMessage(_) => TypeId(tx.call) == 2
            case CreateChannel(_) => TypeId(tx.call) == 3
            case PostToChannel(_) => TypeId(tx.call) == 4
            case JoinChannel(_) => TypeId(tx.call) == 5
            case UpdateProfile => TypeId(tx.call) == 6
            case SubmitDeliveryProof(_) => TypeId(tx.call) == 7
  {
  }

  /** A receipt leaf: tag, id, place, gas, success flag and error hash. */
  lemma {:induction false} ReceiptLeafLayout(r: TxReceipt)
    ensures ReceiptPreimage(r) == Utf8("dchat/miniblock/receipt_leaf/v1") + [0]
              + (r.txId + [0] + (LittleEndian(r.txIndex, 4) + [0] + (LittleEndian(r.gasUsed, 8) + [0]
              + ([if r.success then 1 else 0] + [0] + (r.errorHash + [0])))))
  {
    hide Utf8, LittleEndian;
    var parts := ReceiptParts(r);
    var none: seq<Bytes> := [];
    assert parts[1..][1..] == parts[2..] && parts[2..][1..] == parts[3..] && parts[3..][1..] == parts[4..] && parts[4..][1..] == none;
    assert Terminated(parts[4..]) == r.errorHash + [0];
    assert Terminated(parts[3..]) == [if r.success then 1 else 0] + [0] + Terminated(parts[4..]);
    assert Terminated(parts[2..]) == LittleEndian(r.gasUsed, 8) + [0] + Terminated(parts[3..]);
    assert Terminated(parts[1..]) == LittleEndian(r.txIndex, 4) + [0] + Terminated(parts[2..]);
  }

  function TxLeaves(digest: Digest, txs: seq<Transaction>): (ls: seq<Hash>)
    ensures |ls| == |txs|
    ensures forall i | 0 <= i < |txs| :: ls[i] == digest(TxPreimage(txs[i]))
  {
    if txs == [] then [] else TxLeaves(digest, txs[..|txs| - 1]) + [digest(TxPreimage(txs[|txs| - 1]))]
  }

  function ReceiptLeaves(digest: Digest, rs: seq<TxReceipt>): (ls: seq<Hash>)
    ensures |ls| == |rs|
    ensures forall i | 0 <= i < |rs| :: ls[i] == digest(ReceiptPreimage(rs[i]))
  {
    if rs == [] then [] else ReceiptLeaves(digest, rs[..|rs| - 1]) + [digest(ReceiptPreimage(rs[|rs| - 1]))]
  }

  // ---------- commitments ----------

  function TxSize(tx: Transaction): nat {
    tx.payloadLen + |tx.txHash| + 64
  }

  /** The exact size of a body, before any saturation. */
  function BodySize(txs: seq<Transaction>): nat {
    if txs == [] then 0 else BodySize(txs[..|txs| - 1]) + TxSize(txs[|txs| - 1])
  }

  /** Each transaction counts with its payload, its hash and 64 bytes. */
  lemma {:induction false} BodySizeIs(txs: seq<Transaction>, i: nat)
    requires i < |txs|
    ensures BodySize([]) == 0
    ensures BodySize(txs[..i + 1]) == BodySize(txs[..i]) + txs[i].payloadLen + |txs[i].txHash| + 64
  {
    assert txs[..i + 1][..i] == txs[..i];
  }

  /** The number of places with a delivery proof. */
  lemma {:induction false} DeliveryProofsCount(txs: seq<Transaction>)
    ensures DeliveryProofs(txs) == |set i | 0 <= i < |txs| && txs[i].call.SubmitDeliveryProof?|
  {
    var places := set i | 0 <= i < |txs| && txs[i].call.SubmitDeliveryProof?;
    if txs != [] {
      var n := |txs| - 1;
      DeliveryProofsCount(txs[..n]);
      var before := set i | 0 <= i < n && txs[..n][i].call.SubmitDeliveryProof?;
      assert places == before + if txs[n].call.SubmitDeliveryProof? then {n} else {};
    }
  }

  function DeliveryProofs(txs: seq<Transaction>): (n: nat)
    ensures n <= |txs|
  {
    if txs == [] then 0
    else DeliveryProofs(txs[..|txs| - 1]) + if txs[|txs| - 1].call.SubmitDeliveryProof? then 1 else 0
  }

  ghost function RootOf(digest: Digest, leaves: seq<Hash>): Hash {
    HashMerkle.TreeHash(TaggedNode(digest), ZERO_HASH, leaves)
  }

  /** What a body commits to; absent receipts commit to the zero hash. */
  ghost function CommitmentsOf(digest: Digest, lane: U16, body: MiniblockBody): Result<Commitments, BlockError> {
    var laneError := LaneError(digest, lane, body.transactions);
    if laneError.Some? then Err(laneError.value)
    else if body.receipts != [] && |body.receipts| != |body.transactions| then
      Err(InvalidTransaction("receipts length must match tx length"))
    else
      Ok(Commitments(
        RootOf(digest, TxLeaves(digest, body.transactions)),
        RootOf(digest, ReceiptLeaves(digest, body.receipts)),
        Min(|body.transactions|, U16_MAX),
        Min(BodySize(body.transactions), U32_MAX),
        Min(DeliveryProofs(body.transactions), U16_MAX)))
  }

  /** `compute_body_commitments`. */
  method ComputeBodyCommitments(digest: Digest, lane: U16, body: MiniblockBody)
    returns (r: Result<Commitments, BlockError>)
    ensures r == CommitmentsOf(digest, lane, body)
    ensures r.Ok? <==> InLane(digest, body.transactions, lane) && (body.receipts == [] || |body.receipts| == |body.transactions|)
    ensures r.Err? && InLane(digest, body.transactions, lane) ==> r == Err(InvalidTransaction("receipts length must match tx length"))
    ensures r.Err? && !InLane(digest, body.transactions, lane) ==>
      exists i: nat :: FirstViolation(digest, lane, body.transactions, i, r.error)
    ensures r.Ok? ==>
      && r.value.txRoot == HashMerkle.TreeHash(TaggedNode(digest), ZERO_HASH, TxLeaves(digest, body.transactions))
      && r.value.receiptsRoot == HashMerkle.TreeHash(TaggedNode(digest), ZERO_HASH, ReceiptLeaves(digest, body.receipts))
      && r.value.txCount == Min(|body.transactions|, 65535)
      && r.value.bodyBytes == Min(BodySize(body.transactions), 4294967295)
      && r.value.sigchecks == Min(DeliveryProofs(body.transactions), 65535)
  {
    hide LaneError, HashMerkle.TreeHash, BodySize, DeliveryProofs;
    var txs, receipts := body.transactions, body.receipts;
    var laneError := ValidateLaneSharding(digest, lane, txs);
    if laneError.Some? {
      return Err(laneError.value);
    }
    var bodyBytes, sigchecks, txLeaves := ScanTransactions(digest, txs);
    if receipts != [] && |receipts| != |txs| {
      return Err(InvalidTransaction("receipts length must match tx length"));
    }
    var receiptLeaves := LeavesOfReceipts(digest, receipts);
    var txRoot := HashMerkle.MerkleRoot(TaggedNode(digest), ZERO_HASH, txLeaves);
    var receiptsRoot := ZERO_HASH;
    if receiptLeaves != [] {
      receiptsRoot := HashMerkle.MerkleRoot(TaggedNode(digest), ZERO_HASH, receiptLeaves);
    } else {
      EmptyRoot(digest);
    }
    r := Ok(Commitments(txRoot, receiptsRoot, Min(|txs|, U16_MAX), Min(bodyBytes, U32_MAX), sigchecks));
  }

  /** The loop over the transactions: saturating size, signature checks and leaves. */
  method ScanTransactions(digest: Digest, txs: seq<Transaction>)
    returns (bodyBytes: nat, sigchecks: nat, leaves: seq<Hash>)
    ensures bodyBytes == Min(BodySize(txs), U64_MAX)
    ensures sigchecks == Min(DeliveryProofs(txs), U16_MAX)
    ensures leaves == TxLeaves(digest, txs)
  {
    hide TxPreimage;
    bodyBytes, sigchecks, leaves := 0, 0, [];
    for i := 0 to |txs|
      invariant bodyBytes == Min(BodySize(txs[..i]), U64_MAX)
      invariant sigchecks == Min(DeliveryProofs(txs[..i]), U16_MAX)
      invariant leaves == TxLeaves(digest, txs[..i])
    {
      var tx := txs[i];
      assert txs[..i + 1][..i] == txs[..i];
      bodyBytes := SaturatingAdd(bodyBytes, tx.payloadLen, U64_MAX);
      bodyBytes := SaturatingAdd(bodyBytes, |tx.txHash|, U64_MAX);
      bodyBytes := SaturatingAdd(bodyBytes, 64, U64_MAX);
      if tx.call.SubmitDeliveryProof? {
        sigchecks := SaturatingAdd(sigchecks, 1, U16_MAX);
      }
      leaves := leaves + [digest(TxPreimage(tx))];
    }
    assert txs[..|txs|] == txs;
  }

  lemma EmptyRoot(digest: Digest)
    ensures RootOf(digest, []) == ZERO_HASH
  {
  }

  method LeavesOfReceipts(digest: Digest, receipts: seq<TxReceipt>) returns (leaves: seq<Hash>)
    ensures leaves == ReceiptLeaves(digest, receipts)
  {
    hide ReceiptPreimage;
    leaves := [];
    for i := 0 to |receipts|
      invariant leaves == ReceiptLeaves(digest, receipts[..i])
    {
      assert receipts[..i + 1][..i] == receipts[..i];
      leaves := leaves + [digest(ReceiptPreimage(receipts[i]))];
    }
    assert receipts[..|receipts|] == receipts;
  }

  /** `verify_body`, naming the first commitment that does not match. */
  ghost function Verification(digest: Digest, header: MiniblockHeader, body: Option<MiniblockBody>): Result<(), BlockError> {
    if body.None? then Err(MiniblockBodyMissing)
    else
      match CommitmentsOf(digest, header.lane, body.value)
      case Err(e) => Err(e)
      case Ok(c) =>
        if c.txRoot != header.commitments.txRoot then Err(CommitmentMismatch("tx_root"))
        else if c.receiptsRoot != header.commitments.receiptsRoot then Err(CommitmentMismatch("receipts_root"))
        else if c.txCount != header.commitments.txCount then Err(CommitmentMismatch("tx_count"))
        else if c.bodyBytes != header.commitments.bodyBytes then Err(CommitmentMismatch("body_bytes"))
        else if c.sigchecks != header.commitments.sigchecks then Err(CommitmentMismatch("sigchecks"))
        else Ok(())
  }

  // ---------- execution ----------

  function ErrorText(e: BlockError): string {
    if e.InvalidTransaction? then "Invalid transaction: " + e.message else "Lane sharding violation"
  }

  function ReceiptFor(digest: Digest, tx: Transaction, index: nat, o: Outcome): TxReceipt {
    match o
    case Ok(gas) => TxReceipt(tx.txId, index % U32_MODULUS, gas, true, ZERO_HASH)
    case Err(e) =>
      TxReceipt(tx.txId, index % U32_MODULUS, 0, false, DomainHashParts(digest, TAG_ERROR, [Utf8(ErrorText(e))]))
  }

  /** What an error receipt hashes: the tag, the error's text, each ended by a zero byte. */
  function ErrorPreimage(message: string): Bytes {
    Utf8("dchat/error/v1") + [0] + Utf8("Invalid transaction: " + message) + [0]
  }

  /** The receipt says truthfully what became of the transaction at this place. */
  ghost predicate Documents(digest: Digest, tx: Transaction, index: nat, o: Outcome, r: TxReceipt) {
    && r.txId == tx.txId && r.txIndex == index % 4294967296
    && (r.success <==> o.Ok?)
    && (o.Ok? ==> r.gasUsed == o.value && r.errorHash == ZERO_HASH)
    && (o.Err? ==> r.gasUsed == 0)
    && (o.Err? && o.error.InvalidTransaction? ==> r.errorHash == digest(ErrorPreimage(o.error.message)))
  }

  lemma {:induction false} ReceiptDocuments(digest: Digest, tx: Transaction, index: nat, o: Outcome)
    ensures Documents(digest, tx, index, o, ReceiptFor(digest, tx, index, o))
  {
    if o.Err? && o.error.InvalidTransaction? {
      hide Utf8;
      var text := Utf8(ErrorText(o.error));
      var none: seq<Bytes> := [];
      assert [text][1..] == none;
      assert Terminated([text]) == text + [0];
      assert Utf8(TAG_ERROR) + [0] + (text + [0]) == Utf8(TAG_ERROR) + [0] + text + [0];
    }
  }

  /** Every outcome of a ledger run is a success or an invalid transaction. */
  lemma {:induction false} OutcomesAreDecided(h: Digest, w: World, txs: seq<Transaction>, i: nat)
    requires i < |txs|
    ensures Outcomes(h, w, txs)[i].Err? ==> Outcomes(h, w, txs)[i].error.InvalidTransaction?
    decreases |txs|
  {
    hide Apply, OutcomeOf;
    if i == 0 {
      TransactionMeans(h, w, txs[0]);
    } else {
      OutcomesAreDecided(h, Apply(h, w, txs[0]), txs[1..], i - 1);
    }
  }

  /** One true receipt per transaction, in order. */
  ghost predicate AllDocumented(h: Digest, w: World, txs: seq<Transaction>, rs: seq<TxReceipt>) {
    && |rs| == |txs|
    && forall i | 0 <= i < |txs| ::
         var o := Outcomes(h, w, txs)[i];
         Documents(h, txs[i], i, o, rs[i]) && (o.Err? ==> o.error.InvalidTransaction?)
  }

  lemma {:induction false} ReceiptsDocument(h: Digest, w: World, txs: seq<Transaction>)
    ensures AllDocumented(h, w, txs, Receipts(h, txs, Outcomes(h, w, txs)))
  {
    hide Documents, ReceiptFor, Outcomes;
    forall i | 0 <= i < |txs|
      ensures var o := Outcomes(h, w, txs)[i];
              Documents(h, txs[i], i, o, Receipts(h, txs, Outcomes(h, w, txs))[i]) && (o.Err? ==> o.error.InvalidTransaction?)
    {
      OutcomesAreDecided(h, w, txs, i);
      ReceiptDocuments(h, txs[i], i, Outcomes(h, w, txs)[i]);
    }
  }

  function Receipts(digest: Digest, txs: seq<Transaction>, os: seq<Outcome>): (rs: seq<TxReceipt>)
    requires |txs| == |os|
    ensures |rs| == |txs|
    ensures forall i | 0 <= i < |txs| :: rs[i] == ReceiptFor(digest, txs[i], i, os[i])
  {
    if txs == [] then []
    else
      var n := |txs| - 1;
      Receipts(digest, txs[..n], os[..n]) + [ReceiptFor(digest, txs[n], n, os[n])]
  }

  function TotalGas(rs: seq<TxReceipt>): nat {
    if rs == [] then 0 else TotalGas(rs[..|rs| - 1]) + rs[|rs| - 1].gasUsed
  }

  lemma {:induction false} OutcomesAppend(h: Digest, w: World, a: seq<Transaction>, b: Transaction)
    ensures Outcomes(h, w, a + [b]) == Outcomes(h, w, a) + [OutcomeOf(Run(h, w, a), b)]
    decreases |a|
  {
    hide Apply, OutcomeOf;
    if a == [] {
      assert a + [b] == [b];
    } else {
      assert (a + [b])[1..] == a[1..] + [b];
      OutcomesAppend(h, Apply(h, w, a[0]), a[1..], b);
    }
  }

  /** One more transaction of the execution loop. */
  lemma {:induction false} ExecutionStep(h: Digest, w: World, txs: seq<Transaction>, i: nat)
    requires i < |txs|
    ensures Run(h, w, txs[..i + 1]) == Apply(h, Run(h, w, txs[..i]), txs[i])
    ensures var o := OutcomeOf(Run(h, w, txs[..i]), txs[i]);
            && Outcomes(h, w, txs[..i + 1]) == Outcomes(h, w, txs[..i]) + [o]
            && Receipts(h, txs[..i + 1], Outcomes(h, w, txs[..i + 1]))
            == Receipts(h, txs[..i], Outcomes(h, w, txs[..i])) + [ReceiptFor(h, txs[i], i, o)]
  {
    hide Apply, OutcomeOf, ReceiptFor;
    assert txs[..i + 1] == txs[..i] + [txs[i]];
    RunAppend(h, w, txs[..i], [txs[i]]);
    OutcomesAppend(h, w, txs[..i], txs[i]);
  }

  lemma TotalGasAppend(rs: seq<TxReceipt>, r: TxReceipt)
    ensures TotalGas(rs + [r]) % U64_MODULUS == WrappingAdd(TotalGas(rs) % U64_MODULUS, r.gasUsed)
    ensures r.gasUsed == 0 ==> TotalGas(rs + [r]) == TotalGas(rs)
  {
    assert (rs + [r])[..|rs|] == rs;
  }

  lemma NoGas()
    ensures TotalGas([]) == 0
  {
  }

  class Miniblock {
    var header: MiniblockHeader
    var body: Option<MiniblockBody>

    constructor (header: MiniblockHeader, body: Option<MiniblockBody>)
      ensures this.header == header && this.body == body
    {
      this.header, this.body := header, body;
    }

    /** `Miniblock::new`: accepted exactly when the body is sharded, consistent and within the caps. */
    static method New(digest: Digest, index: U16, now: Timestamp, lane: U16, body: MiniblockBody)
      returns (r: Result<Miniblock, BlockError>)
      ensures r.Ok? <==>
        && InLane(digest, body.transactions, lane)
        && (body.receipts == [] || |body.receipts| == |body.transactions|)
        && |body.transactions| <= 500 && BodySize(body.transactions) <= 524288
      ensures r.Ok? ==>
        && fresh(r.value) && r.value.body == Some(body)
        && r.value.header.index == index && r.value.header.timestamp == now && r.value.header.lane == lane
        && r.value.header.preStateHash == ZERO_HASH && r.value.header.postStateHash == ZERO_HASH && r.value.header.gasUsed == 0
        && CommitmentsOf(digest, lane, body) == Ok(r.value.header.commitments)
        && Verification(digest, r.value.header, r.value.body) == Ok(())
      ensures r.Err? && !InLane(digest, body.transactions, lane) ==>
        exists i: nat :: FirstViolation(digest, lane, body.transactions, i, r.error)
      ensures r.Err? && InLane(digest, body.transactions, lane) ==>
        r.error == InvalidTransaction(
          if body.receipts != [] && |body.receipts| != |body.transactions| then "receipts length must match tx length"
          else if |body.transactions| > 500 then "too many txs in miniblock"
          else "miniblock body too large")
    {
      var c := ComputeBodyCommitments(digest, lane, body);
      if c.Err? {
        return Err(c.error);
      }
      if c.value.txCount > MAX_TXS {
        return Err(InvalidTransaction("too many txs in miniblock"));
      }
      if c.value.bodyBytes > MAX_BODY_BYTES {
        return Err(InvalidTransaction("miniblock body too large"));
      }
      if c.value.sigchecks > MAX_SIGCHECKS {
        return Err(InvalidTransaction("too many sigchecks"));
      }
      var mb := new Miniblock(MiniblockHeader(index, now, lane, c.value, ZERO_HASH, ZERO_HASH, 0), Some(body));
      r := Ok(mb);
    }

    method VerifyBody(digest: Digest) returns (r: Result<(), BlockError>)
      ensures r == Verification(digest, header, body)
      ensures r.Ok? <==> body.Some? && CommitmentsOf(digest, header.lane, body.value) == Ok(header.commitments)
      ensures body.None? ==> r == Err(MiniblockBodyMissing)
      ensures body.Some? && CommitmentsOf(digest, header.lane, body.value).Err? ==>
        r == Err(CommitmentsOf(digest, header.lane, body.value).error)
      ensures body.Some? && CommitmentsOf(digest, header.lane, body.value).Ok? ==>
        var c, d := CommitmentsOf(digest, header.lane, body.value).value, header.commitments;
        && (r == Err(CommitmentMismatch("tx_root")) <==> c.txRoot != d.txRoot)
        && (r == Err(CommitmentMismatch("receipts_root")) <==> c.txRoot == d.txRoot && c.receiptsRoot != d.receiptsRoot)
        && (r == Err(CommitmentMismatch("tx_count")) <==>
              c.txRoot == d.txRoot && c.receiptsRoot == d.receiptsRoot && c.txCount != d.txCount)
        && (r == Err(CommitmentMismatch("body_bytes")) <==>
              c.(bodyBytes := d.bodyBytes, sigchecks := d.sigchecks) == d && c.bodyBytes != d.bodyBytes)
        && (r == Err(CommitmentMismatch("sigchecks")) <==> c.(sigchecks := d.sigchecks) == d && c.sigchecks != d.sigchecks)
    {
      if body.None? {
        return Err(MiniblockBodyMissing);
      }
      var computed := ComputeBodyCommitments(digest, header.lane, body.value);
      if computed.Err? {
        return Err(computed.error);
      }
      var c := computed.value;
      if c.txRoot != header.commitments.txRoot {
        return Err(CommitmentMismatch("tx_root"));
      }
      if c.receiptsRoot != header.commitments.receiptsRoot {
        return Err(CommitmentMismatch("receipts_root"));
      }
      if c.txCount != header.commitments.txCount {
        return Err(CommitmentMismatch("tx_count"));
      }
      if c.bodyBytes != header.commitments.bodyBytes {
        return Err(CommitmentMismatch("body_bytes"));
      }
      if c.sigchecks != header.commitments.sigchecks {
        return Err(CommitmentMismatch("sigchecks"));
      }
      r := Ok(());
    }

    /**
     `execute`.  It fails exactly for a missing body or a lane violation; the latter has by then
     replaced the pre-state hash and dropped the old receipts.
     */
    method Execute(h: Digest, state: Ledger) returns (r: Result<(), BlockError>)
      modifies this, state
      ensures r.Ok? <==> old(body).Some? && InLane(h, old(body).value.transactions, old(header).lane)
      ensures old(body).None? ==>
        r == Err(MiniblockBodyMissing) && header == old(header) && body == None && state.View() == old(state.View())
      ensures old(body).Some? && r.Err? ==>
        && (exists i: nat :: FirstViolation(h, old(header).lane, old(body).value.transactions, i, r.error))
        && state.View() == old(state.View())
        && header == old(header).(preStateHash := StateHash(h, old(state.View())))
        && body == Some(MiniblockBody(old(body).value.transactions, []))
      ensures r.Ok? ==>
        var txs, w := old(body).value.transactions, old(state.View());
        && state.View() == Run(h, w, txs)
        && body == Some(MiniblockBody(txs, Receipts(h, txs, Outcomes(h, w, txs))))
        && AllDocumented(h, w, txs, body.value.receipts)
        && header.preStateHash == StateHash(h, w)
        && header.postStateHash == StateHash(h, Run(h, w, txs))
        && header.gasUsed == TotalGas(body.value.receipts) % U64_MODULUS
        && header.index == old(header).index && header.timestamp == old(header).timestamp && header.lane == old(header).lane
        && Verification(h, header, body) == Ok(())
    {
      hide Apply, OutcomeOf, ReceiptFor, RootOf, TxLeaves, ReceiptLeaves, AllDocumented;
      if body.None? {
        return Err(MiniblockBodyMissing);
      }
      ghost var w := state.View();
      var txs := body.value.transactions;
      var preHash := state.ComputeHash(h);
      header := header.(preStateHash := preHash);
      body := Some(MiniblockBody(txs, []));
      var laneError := ValidateLaneSharding(h, header.lane, txs);
      if laneError.Some? {
        return Err(laneError.value);
      }
      var receipts, gasTotal := RunTransactions(h, state, txs);
      body := Some(MiniblockBody(txs, receipts));
      var postHash := state.ComputeHash(h);
      header := header.(postStateHash := postHash, gasUsed := gasTotal);
      var c := ComputeBodyCommitments(h, header.lane, body.value);
      if c.Err? {
        assert false;
      }
      header := header.(commitments := c.value);
      r := Ok(());
    }

    /** The execution loop. */
    static method RunTransactions(h: Digest, state: Ledger, txs: seq<Transaction>)
      returns (receipts: seq<TxReceipt>, gasTotal: U64)
      modifies state
      ensures state.View() == Run(h, old(state.View()), txs)
      ensures receipts == Receipts(h, txs, Outcomes(h, old(state.View()), txs))
      ensures AllDocumented(h, old(state.View()), txs, receipts)
      ensures gasTotal == TotalGas(receipts) % U64_MODULUS
    {
      hide Apply, OutcomeOf, TotalGas, WrappingAdd, AllDocumented, Effect, Settled;
      ghost var w := state.View();
      ReceiptsDocument(h, w, txs);
      receipts, gasTotal := [], 0;
      NoGas();
      for i := 0 to |txs|
        invariant state.View() == Run(h, w, txs[..i])
        invariant receipts == Receipts(h, txs[..i], Outcomes(h, w, txs[..i]))
        invariant gasTotal == TotalGas(receipts) % U64_MODULUS
      {
        ExecutionStep(h, w, txs, i);
        var outcome := state.ApplyTransaction(h, txs[i]);
        var receipt := ReceiptFor(h, txs[i], i, outcome);
        if outcome.Ok? {
          gasTotal := WrappingAdd(gasTotal, outcome.value);
        }
        TotalGasAppend(receipts, receipt);
        receipts := receipts + [receipt];
      }
      assert txs[..|txs|] == txs;
    }
  }
}
