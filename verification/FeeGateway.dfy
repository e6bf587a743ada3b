/**
 The fee-gated send (`fee_gateway.rs`): charge, hold, submit, finality, pay for storage, release,
 store.  Chat-chain answers and the accounts drawn for escrow transfers are inputs.
 */
module FeeGateway {
  import opened Bytes
  import opened MapSums
  import opened FeeOrchestrator

  const MAX_MESSAGE_SIZE: nat := 10 * 1024 * 1024
  const BLOB_THRESHOLD: nat := 64 * 1024
  const MEGABYTE: nat := 1024 * 1024

  datatype Config = Config(
    burnRate: BasisPoints,
    shares: Shares,
    directBaseFee: U64,
    channelBaseFee: U64,
    perByteFee: U64,
    maxFeeCap: U64,
    messageFee: U64,
    storageCostPerMb: U64)

  /** The length of a buffer in memory. */
  type Length = x: nat | x <= 0x7FFF_FFFF_FFFF_FFFF

  /** A request with the relay it prefers or that was drawn for it. */
  datatype Request = Request(kind: Kind, payer: UserId, relay: UserId, payload: nat, nonce: nat, contentLen: Length)

  function Op(rq: Request): OpId {
    OpId(rq.payer, rq.kind, rq.payload, rq.nonce)
  }

  datatype Finality = Reached | NotReached | WaitFailed

  /** Everything the gateway learns from outside during one send. */
  datatype Answers = Answers(
    holdAccount: UserId,
    submitted: bool,
    finality: Finality,
    releaseAccount: UserId,
    storageAccepts: bool,
    refundOrder: seq<EscrowId>,
    refundAccounts: EscrowId -> UserId)

  datatype OperationStatus = Success | FailedRefunded

  datatype State = State(bank: Bank, mappings: map<OpId, OperationStatus>, stored: seq<OpId>)

  datatype Effect =
    | GasCharged | EscrowHeld | TxSubmitted | Finalised | StoragePaid | EscrowReleased
    | ContentStored | ContentLost | Refunds

  datatype Outcome =
    | Delivered | AlreadyDone | TooLarge | InsufficientBalance | GasFailed | EscrowFailed
    | SubmitFailed | FinalityFailed | StoragePaymentFailed | ReleaseFailed | CommitFailed | WrongPayload

  datatype Run = Run(state: State, trace: seq<Effect>, outcome: Outcome)

  // ---------- fees ----------

  /** `calculate_gas_fee`: saturating, then capped. */
  function GasFee(c: Config, rq: Request): U64 {
    var base := if rq.kind == Direct then c.directBaseFee else c.channelBaseFee;
    Min(SaturatingAdd(base, Min(rq.contentLen * c.perByteFee, U64_MAX), U64_MAX), c.maxFeeCap)
  }

  /** The fee before the cap: the base fee of the request's own kind and the fee per byte of content. */
  function FullGas(c: Config, rq: Request): nat {
    match rq.kind
    case Direct => c.directBaseFee + c.perByteFee * rq.contentLen
    case Channel => c.channelBaseFee + c.perByteFee * rq.contentLen
  }

  /** The gas fee is the full fee if that is within the cap, and the cap otherwise; more content never costs less. */
  lemma {:induction false} GasFeeIsCapped(c: Config, rq: Request, longer: Length)
    ensures GasFee(c, rq) <= c.maxFeeCap
    ensures GasFee(c, rq) == FullGas(c, rq) <==> FullGas(c, rq) <= c.maxFeeCap
    ensures FullGas(c, rq) > c.maxFeeCap ==> GasFee(c, rq) == c.maxFeeCap
    ensures longer >= rq.contentLen ==> GasFee(c, rq.(contentLen := longer)) >= GasFee(c, rq)
  {
    assert rq.contentLen * c.perByteFee == c.perByteFee * rq.contentLen;
    if longer >= rq.contentLen {
      MoreBytesCostMore(rq.contentLen, longer, c.perByteFee);
    }
  }

  lemma MoreBytesCostMore(x: nat, y: nat, price: nat)
    requires x <= y
    ensures x * price <= y * price
  {
  }

  function Megabytes(len: nat): nat {
    (len + MEGABYTE - 1) / MEGABYTE
  }

  /** `calculate_storage_fee`: inline content is free, a blob pays per started megabyte, in 64 bits. */
  function StorageFee(c: Config, len: nat): U64 {
    if len <= BLOB_THRESHOLD then 0
    else (if Megabytes(len) >= 1 then Megabytes(len) else 1) * c.storageCostPerMb % U64_MODULUS
  }

  /** A blob pays for the least number of whole megabytes that holds it, unless the product wraps. */
  lemma {:induction false} StorageFeeIsLeast(c: Config, len: nat)
    ensures len <= 65536 ==> StorageFee(c, len) == 0
    ensures len > 65536 ==>
      var mb := Megabytes(len);
      && (mb - 1) * 1048576 < len <= mb * 1048576
      && StorageFee(c, len) == mb * c.storageCostPerMb % U64_MODULUS
      && (StorageFee(c, len) == mb * c.storageCostPerMb <==> mb * c.storageCostPerMb <= U64_MAX)
  {
    if len > 65536 {
      assert Megabytes(len) >= 1;
      WrappedAtMost(Megabytes(len) * c.storageCostPerMb);
    }
  }

  /** The sum that the balance is compared with, in 64 bits. */
  function Required(c: Config, rq: Request): U64 {
    WrappingAdd(WrappingAdd(GasFee(c, rq), c.messageFee), StorageFee(c, rq.contentLen))
  }

  /** The balance check covers all fees exactly when their sum does not wrap. */
  lemma {:induction false} RequiredIsTheSumIff(c: Config, rq: Request)
    ensures var sum := GasFee(c, rq) + c.messageFee + StorageFee(c, rq.contentLen);
            Required(c, rq) == sum <==> sum <= U64_MAX
  {
    hide GasFee, StorageFee;
  }

  function EscrowOf(rq: Request): EscrowId {
    (Op(rq), rq.payer, rq.relay)
  }

  // ---------- the reference run ----------

  function OrElse(r: Option<Bank>, b: Bank): Bank {
    if r.Some? then r.value else b
  }

  /** `refund_operation`: both refunds are attempted, neither failure is reported. */
  function RefundOperation(c: Config, s: State, rq: Request, w: Answers): State {
    var afterGas := OrElse(RefundGas(s.bank, Op(rq)), s.bank);
    State(
      RefundEscrows(afterGas, c.burnRate, Op(rq), w.refundOrder, w.refundAccounts),
      if Op(rq) in s.mappings then s.mappings[Op(rq) := FailedRefunded] else s.mappings,
      s.stored)
  }

  /** A failure to store is logged and otherwise ignored. */
  function LastEffect(w: Answers): Effect {
    if w.storageAccepts then ContentStored else ContentLost
  }

  function Finish(c: Config, s: State, rq: Request, w: Answers, trace: seq<Effect>): Run {
    var stored := if w.storageAccepts then s.stored + [Op(rq)] else s.stored;
    match MarkCommitted(s.bank, Op(rq))
    case None => Run(s.(stored := stored), trace + [LastEffect(w)], CommitFailed)
    case Some(b) => Run(State(b, s.mappings[Op(rq) := Success], stored), trace + [LastEffect(w)], Delivered)
  }

  function AfterStorage(c: Config, s: State, rq: Request, w: Answers, trace: seq<Effect>): Run {
    match ReleaseEscrow(s.bank, c.burnRate, EscrowOf(rq), w.releaseAccount)
    case None => Run(s, trace, ReleaseFailed)
    case Some(b) => Finish(c, s.(bank := b), rq, w, trace + [EscrowReleased])
  }

  function StorageSinks(amount: nat): Amounts {
    Amounts(0, 0, 0, 0, amount)
  }

  function AfterFinality(c: Config, s: State, rq: Request, w: Answers, trace: seq<Effect>): Run {
    var fee := StorageFee(c, rq.contentLen);
    if fee == 0 then AfterStorage(c, s, rq, w, trace)
    else
      match PayPools(s.bank, rq.payer, fee, StorageSinks(fee))
      case None => Run(s, trace, StoragePaymentFailed)
      case Some(b) => AfterStorage(c, s.(bank := b), rq, w, trace + [StoragePaid])
  }

  function AfterHold(c: Config, s: State, rq: Request, w: Answers, trace: seq<Effect>): Run {
    if !w.submitted then Run(RefundOperation(c, s, rq, w), trace + [Refunds], SubmitFailed)
    else
      match w.finality
      case Reached => AfterFinality(c, s, rq, w, trace + [TxSubmitted, Finalised])
      case NotReached => Run(RefundOperation(c, s, rq, w), trace + [TxSubmitted, Refunds], FinalityFailed)
      case WaitFailed =>
        if rq.kind == Direct then Run(RefundOperation(c, s, rq, w), trace + [TxSubmitted, Refunds], FinalityFailed)
        else Run(s, trace + [TxSubmitted], FinalityFailed)
  }

  function AfterCharge(c: Config, s: State, rq: Request, w: Answers): Run {
    match CreateEscrow(s.bank, c.burnRate, EscrowOf(rq), c.messageFee, w.holdAccount)
    case None => Run(s.(bank := OrElse(RefundGas(s.bank, Op(rq)), s.bank)), [GasCharged, Refunds], EscrowFailed)
    case Some(b) => AfterHold(c, s.(bank := b), rq, w, [GasCharged, EscrowHeld])
  }

  /** `send_direct_message` and `post_to_channel`. */
  function Send(c: Config, s: State, rq: Request, w: Answers): Run {
    if rq.kind == Direct && rq.contentLen > MAX_MESSAGE_SIZE then Run(s, [], TooLarge)
    else if Op(rq) in s.mappings && s.mappings[Op(rq)] == Success then Run(s, [], AlreadyDone)
    else if Balance(s.bank, rq.payer) < Required(c, rq) then Run(s, [], InsufficientBalance)
    else
      match ChargeGas(c.shares, s.bank, rq.payer, GasFee(c, rq), Op(rq))
      case None => Run(s, [], GasFailed)
      case Some(b) => AfterCharge(c, s.(bank := b), rq, w)
  }

  // ---------- the gateway object ----------

  class Gateway {
    const config: Config
    const orchestrator: Orchestrator
    var mappings: map<OpId, OperationStatus>
    var stored: seq<OpId>

    function View(): State
      reads this, orchestrator
    {
      State(orchestrator.View(), mappings, stored)
    }

    ghost predicate Valid() {
      orchestrator.burnRate == config.burnRate && orchestrator.shares == config.shares
    }

    constructor (config: Config, orchestrator: Orchestrator)
      requires orchestrator.burnRate == config.burnRate && orchestrator.shares == config.shares
      ensures Valid() && this.config == config && this.orchestrator == orchestrator
      ensures View() == State(orchestrator.View(), map[], [])
    {
      this.config, this.orchestrator := config, orchestrator;
      mappings, stored := map[], [];
    }

    method UndoOperation(rq: Request, w: Answers)
      requires Valid()
      modifies this`mappings, orchestrator
      ensures View() == RefundOperation(config, old(View()), rq, w)
    {
      hide RefundGas, RefundEscrows;
      var _ := orchestrator.RefundFee(Op(rq));
      orchestrator.RefundAll(Op(rq), w.refundOrder, w.refundAccounts);
      if Op(rq) in mappings {
        mappings := mappings[Op(rq) := FailedRefunded];
      }
    }

    /** Payment for storage, release, storage and commitment, once the message is final. */
    method CompleteAfterFinality(rq: Request, w: Answers, ghost before: seq<Effect>)
      returns (outcome: Outcome, ghost trace: seq<Effect>)
      requires Valid()
      modifies this, orchestrator
      ensures Run(View(), trace, outcome) == AfterFinality(config, old(View()), rq, w, before)
    {
      hide StorageFee, ReleaseEscrow;
      trace := before;
      var fee := StorageFee(config, rq.contentLen);
      if fee > 0 {
        var paid := orchestrator.DebitForProtocol(rq.payer, fee, StorageSinks(fee));
        if !paid {
          return StoragePaymentFailed, trace;
        }
        trace := trace + [StoragePaid];
      }
      var released := orchestrator.Release(EscrowOf(rq), w.releaseAccount);
      if !released {
        return ReleaseFailed, trace;
      }
      trace := trace + [EscrowReleased];
      if w.storageAccepts {
        stored := stored + [Op(rq)];
      }
      trace := trace + [LastEffect(w)];
      var committed := orchestrator.Commit(Op(rq));
      if !committed {
        return CommitFailed, trace;
      }
      mappings := mappings[Op(rq) := Success];
      outcome := Delivered;
    }

    method SendDirectMessage(rq: Request, w: Answers) returns (outcome: Outcome, ghost trace: seq<Effect>)
      requires Valid()
      modifies this, orchestrator
      ensures rq.kind == Direct ==> Run(View(), trace, outcome) == Send(config, old(View()), rq, w)
      ensures rq.kind == Direct && trace != [] && !old(Standing(View().bank, Op(rq))) ==>
        OnRecord(View().bank, Op(rq), rq.payer, Min(config.directBaseFee + config.perByteFee * rq.contentLen, config.maxFeeCap))
      ensures rq.kind != Direct ==> Run(View(), trace, outcome) == Run(old(View()), [], WrongPayload)
    {
      ChargeIsOnRecord(config, View(), rq, w);
      hide AfterFinality, RefundOperation, RefundGas, ChargeGas, CreateEscrow, GasFee, StorageFee, OnRecord, Standing;
      trace := [];
      if rq.kind != Direct {
        return WrongPayload, trace;
      }
      if rq.contentLen > MAX_MESSAGE_SIZE {
        return TooLarge, trace;
      }
      if Op(rq) in mappings && mappings[Op(rq)] == Success {
        return AlreadyDone, trace;
      }
      var gasFee := GasFee(config, rq);
      var required := WrappingAdd(WrappingAdd(gasFee, config.messageFee), StorageFee(config, rq.contentLen));
      if Lookup(orchestrator.wallets, rq.payer) < required {
        return InsufficientBalance, trace;
      }
      var charged := orchestrator.ChargeGasFee(rq.payer, gasFee, Op(rq));
      if !charged {
        return GasFailed, trace;
      }
      var held := orchestrator.Hold(EscrowOf(rq), config.messageFee, w.holdAccount);
      if !held {
        var _ := orchestrator.RefundFee(Op(rq));
        return EscrowFailed, [GasCharged, Refunds];
      }
      trace := [GasCharged, EscrowHeld];
      if !w.submitted {
        UndoOperation(rq, w);
        return SubmitFailed, trace + [Refunds];
      }
      if w.finality != Reached {
        UndoOperation(rq, w);
        return FinalityFailed, trace + [TxSubmitted, Refunds];
      }
      outcome, trace := CompleteAfterFinality(rq, w, trace + [TxSubmitted, Finalised]);
    }

    /** The same order, except that a failed wait for finality returns without any refund. */
    method PostToChannel(rq: Request, w: Answers) returns (outcome: Outcome, ghost trace: seq<Effect>)
      requires Valid()
      modifies this, orchestrator
      ensures rq.kind == Channel ==> Run(View(), trace, outcome) == Send(config, old(View()), rq, w)
      ensures rq.kind == Channel && trace != [] && !old(Standing(View().bank, Op(rq))) ==>
        OnRecord(View().bank, Op(rq), rq.payer, Min(config.channelBaseFee + config.perByteFee * rq.contentLen, config.maxFeeCap))
      ensures rq.kind != Channel ==> Run(View(), trace, outcome) == Run(old(View()), [], WrongPayload)
    {
      ChargeIsOnRecord(config, View(), rq, w);
      hide AfterFinality, RefundOperation, RefundGas, ChargeGas, CreateEscrow, GasFee, StorageFee, OnRecord, Standing;
      trace := [];
      if rq.kind != Channel {
        return WrongPayload, trace;
      }
      if Op(rq) in mappings && mappings[Op(rq)] == Success {
        return AlreadyDone, trace;
      }
      var gasFee := GasFee(config, rq);
      var required := WrappingAdd(WrappingAdd(gasFee, config.messageFee), StorageFee(config, rq.contentLen));
      if Lookup(orchestrator.wallets, rq.payer) < required {
        return InsufficientBalance, trace;
      }
      var charged := orchestrator.ChargeGasFee(rq.payer, gasFee, Op(rq));
      if !charged {
        return GasFailed, trace;
      }
      var held := orchestrator.Hold(EscrowOf(rq), config.messageFee, w.holdAccount);
      if !held {
        var _ := orchestrator.RefundFee(Op(rq));
        return EscrowFailed, [GasCharged, Refunds];
      }
      trace := [GasCharged, EscrowHeld];
      if !w.submitted {
        UndoOperation(rq, w);
        return SubmitFailed, trace + [Refunds];
      }
      if w.finality == WaitFailed {
        return FinalityFailed, trace + [TxSubmitted];
      }
      if w.finality == NotReached {
        UndoOperation(rq, w);
        return FinalityFailed, trace + [TxSubmitted, Refunds];
      }
      outcome, trace := CompleteAfterFinality(rq, w, trace + [TxSubmitted, Finalised]);
    }
  }

  // ---------- order of effects ----------

  /** The effects up to finality. */
  const FINAL: seq<Effect> := [GasCharged, EscrowHeld, TxSubmitted, Finalised]

  /** The only trace on which an escrow is released; it ends in storing the content, or losing it. */
  function FullTrace(c: Config, rq: Request, last: Effect): seq<Effect> {
    FINAL
    + (if StorageFee(c, rq.contentLen) > 0 then [StoragePaid] else [])
    + [EscrowReleased, last]
  }

  /**
   Content is stored only at the end of the full sequence, with the escrow released in this very
   run; in every other run nothing is stored and no release happens.  A run that reports delivery
   has stored its content exactly when the storage accepted it.
   */
  lemma {:induction false} StoredOnlyAfterEverything(c: Config, s: State, rq: Request, w: Answers)
    ensures var r := Send(c, s, rq, w);
            var full := r.trace == FullTrace(c, rq, LastEffect(w));
            && r.state.stored == (if full && w.storageAccepts then s.stored + [Op(rq)] else s.stored)
            && (ContentStored in r.trace <==> full && w.storageAccepts)
            && (EscrowReleased in r.trace <==> full)
            && (r.outcome in {Delivered, CommitFailed} <==> full)
            && (full ==>
                  && w.submitted && w.finality == Reached
                  && EscrowOf(rq) in r.state.bank.escrows && r.state.bank.escrows[EscrowOf(rq)].status == Released
                  && (EscrowOf(rq) in s.bank.escrows ==> s.bank.escrows[EscrowOf(rq)].status == Held))
  {
    hide RefundGas, RefundEscrows, ChargeGas, CreateEscrow, AfterFinality, StorageFee, GasFee;
    var r := Send(c, s, rq, w);
    var charged := ChargeGas(c.shares, s.bank, rq.payer, GasFee(c, rq), Op(rq));
    if charged.Some? {
      var held := CreateEscrow(charged.value, c.burnRate, EscrowOf(rq), c.messageFee, w.holdAccount);
      if held.Some? {
        TraceAfterFinality(c, s.(bank := held.value), rq, w);
        assert [GasCharged, EscrowHeld] + [TxSubmitted, Finalised] == FINAL;
      }
    }
    if r.trace == FullTrace(c, rq, LastEffect(w)) {
      ReleasedInThisRun(c, s, rq, w);
    }
  }

  /** The same for the part of a run after finality. */
  lemma {:induction false} TraceAfterFinality(c: Config, s: State, rq: Request, w: Answers)
    ensures var r := AfterFinality(c, s, rq, w, FINAL);
            var full := r.trace == FullTrace(c, rq, LastEffect(w));
            && FINAL <= r.trace
            && r.state.stored == (if full && w.storageAccepts then s.stored + [Op(rq)] else s.stored)
            && (ContentStored in r.trace <==> full && w.storageAccepts)
            && (EscrowReleased in r.trace <==> full)
            && (r.outcome in {Delivered, CommitFailed} <==> full)
  {
    hide ReleaseEscrow, MarkCommitted, PayPools, StorageFee;
  }

  lemma {:induction false} ReleasedInThisRun(c: Config, s: State, rq: Request, w: Answers)
    requires Send(c, s, rq, w).trace == FullTrace(c, rq, LastEffect(w))
    ensures var b := Send(c, s, rq, w).state.bank;
            && EscrowOf(rq) in b.escrows && b.escrows[EscrowOf(rq)].status == Released
            && (EscrowOf(rq) in s.bank.escrows ==> s.bank.escrows[EscrowOf(rq)].status == Held)
  {
    hide RefundOperation, RefundGas, ChargeGas, CreateEscrow, ReleaseEscrow, MarkCommitted, PayPools, StorageFee, GasFee;
    var b := ChargeGas(c.shares, s.bank, rq.payer, GasFee(c, rq), Op(rq)).value;
    ChargeKeepsEscrows(c.shares, s.bank, rq.payer, GasFee(c, rq), Op(rq));
    var held := CreateEscrow(b, c.burnRate, EscrowOf(rq), c.messageFee, w.holdAccount).value;
    HoldKeepsExisting(b, c.burnRate, EscrowOf(rq), c.messageFee, w.holdAccount);
    var fee := StorageFee(c, rq.contentLen);
    var paid := if fee == 0 then held else PayPools(held, rq.payer, fee, StorageSinks(fee)).value;
    if fee > 0 {
      PayKeepsEscrows(held, rq.payer, fee, StorageSinks(fee));
    }
    ReleaseNeedsHeld(paid, c.burnRate, EscrowOf(rq), w.releaseAccount);
    var released := ReleaseEscrow(paid, c.burnRate, EscrowOf(rq), w.releaseAccount).value;
    CommitKeepsEscrows(released, Op(rq));
  }

  lemma ChargeKeepsEscrows(shares: ShareConfig, b: Bank, payer: UserId, amount: nat, op: OpId)
    ensures ChargeGas(shares, b, payer, amount, op).Some? ==> ChargeGas(shares, b, payer, amount, op).value.escrows == b.escrows
  {
  }

  lemma HoldKeepsExisting(b: Bank, bps: BasisPoints, id: EscrowId, amount: nat, account: UserId)
    requires CreateEscrow(b, bps, id, amount, account).Some?
    ensures var b' := CreateEscrow(b, bps, id, amount, account).value;
            id in b.escrows ==> b'.escrows == b.escrows
  {
  }

  lemma PayKeepsEscrows(b: Bank, payer: UserId, amount: nat, sinks: Amounts)
    ensures PayPools(b, payer, amount, sinks).Some? ==> PayPools(b, payer, amount, sinks).value.escrows == b.escrows
  {
  }

  lemma ReleaseNeedsHeld(b: Bank, bps: BasisPoints, id: EscrowId, account: UserId)
    requires ReleaseEscrow(b, bps, id, account).Some?
    ensures IsHeld(b, id)
    ensures ReleaseEscrow(b, bps, id, account).value.escrows == b.escrows[id := b.escrows[id].(status := Released)]
  {
  }

  lemma CommitKeepsEscrows(b: Bank, op: OpId)
    ensures MarkCommitted(b, op).Some? ==> MarkCommitted(b, op).value.escrows == b.escrows
  {
  }

  /** Repeating a delivered operation does nothing at all. */
  lemma {:induction false} DeliveredIsFinal(c: Config, s: State, rq: Request, w: Answers, w2: Answers)
    requires Send(c, s, rq, w).outcome == Delivered
    ensures var s' := Send(c, s, rq, w).state;
            Send(c, s', rq, w2) == Run(s', [], AlreadyDone)
  {
    hide RefundOperation, RefundGas, ChargeGas, CreateEscrow, ReleaseEscrow, PayPools, StorageFee, GasFee;
  }

  /** Two requests are one operation if they agree on payer, kind, payload and nonce, whatever their relay. */
  predicate SameOperation(a: Request, b: Request) {
    a.payer == b.payer && a.kind == b.kind && a.payload == b.payload && a.nonce == b.nonce
  }

  /** A delivery answers exactly the requests for the same operation; any other is answered as before it. */
  lemma {:induction false} DoneForSameOperation(c: Config, s: State, rq: Request, w: Answers, other: Request, w2: Answers)
    requires Send(c, s, rq, w).outcome == Delivered
    ensures Send(c, Send(c, s, rq, w).state, other, w2).outcome == AlreadyDone <==>
      && !(other.kind == Direct && other.contentLen > 10_485_760)
      && (SameOperation(rq, other) || Send(c, s, other, w2).outcome == AlreadyDone)
    ensures EscrowOf(rq) == EscrowOf(other) <==> SameOperation(rq, other) && rq.relay == other.relay
  {
    var s' := Send(c, s, rq, w).state;
    assert s'.mappings == s.mappings[Op(rq) := Success] by {
      DeliveredIsMapped(c, s, rq, w);
    }
    DoneIff(c, s, other, w2);
    DoneIff(c, s', other, w2);
    hide Send;
  }

  lemma DeliveredIsMapped(c: Config, s: State, rq: Request, w: Answers)
    requires Send(c, s, rq, w).outcome == Delivered
    ensures Send(c, s, rq, w).state.mappings == s.mappings[Op(rq) := Success]
  {
    hide RefundOperation, RefundGas, ChargeGas, CreateEscrow, ReleaseEscrow, PayPools, StorageFee, GasFee;
  }

  lemma DoneIff(c: Config, s: State, rq: Request, w: Answers)
    ensures Send(c, s, rq, w).outcome == AlreadyDone <==>
      !(rq.kind == Direct && rq.contentLen > MAX_MESSAGE_SIZE) && Op(rq) in s.mappings && s.mappings[Op(rq)] == Success
  {
    hide RefundOperation, RefundGas, ChargeGas, CreateEscrow, ReleaseEscrow, PayPools, StorageFee, GasFee, MarkCommitted;
  }

  // ---------- the recorded charge ----------

  /** A charge that will not be repeated. */
  predicate Standing(b: Bank, op: OpId) {
    op in b.charges && b.charges[op].status != Refunded
  }

  /** A charge of this amount, for this payer, is on record for the operation. */
  predicate OnRecord(b: Bank, op: OpId, payer: UserId, amount: nat) {
    op in b.charges && b.charges[op].payer == payer && b.charges[op].amount == amount
  }

  lemma {:induction false} UndoKeepsRecord(c: Config, s: State, rq: Request, w: Answers, payer: UserId, amount: nat)
    requires OnRecord(s.bank, Op(rq), payer, amount)
    ensures OnRecord(RefundOperation(c, s, rq, w).bank, Op(rq), payer, amount)
  {
    hide RefundEscrows, Supply;
    var b := OrElse(RefundGas(s.bank, Op(rq)), s.bank);
    RefundEscrowsKeeps(b, c.burnRate, Op(rq), w.refundOrder, w.refundAccounts);
  }

  lemma {:induction false} RestKeepsRecord(c: Config, s: State, rq: Request, w: Answers, trace: seq<Effect>, payer: UserId, amount: nat)
    requires OnRecord(s.bank, Op(rq), payer, amount)
    ensures OnRecord(AfterHold(c, s, rq, w, trace).state.bank, Op(rq), payer, amount)
  {
    hide StorageFee, RefundOperation, Burn;
    UndoKeepsRecord(c, s, rq, w, payer, amount);
  }

  /** A send that gets past the charge, with none standing before, is on record with the gas fee of its own request. */
  lemma {:induction false} ChargeOnRecord(c: Config, s: State, rq: Request, w: Answers)
    requires !Standing(s.bank, Op(rq)) && Send(c, s, rq, w).trace != []
    ensures OnRecord(Send(c, s, rq, w).state.bank, Op(rq), rq.payer, Min(FullGas(c, rq), c.maxFeeCap))
  {
    GasFeeIsCapped(c, rq, rq.contentLen);
    hide GasFee, FullGas, StorageFee, AfterHold, CreateEscrow, RefundGas, PayPools, Split, RoundedShare;
    var charged := ChargeGas(c.shares, s.bank, rq.payer, GasFee(c, rq), Op(rq)).value;
    PayKeepsCharges(s.bank, rq.payer, GasFee(c, rq), Split(c.shares, GasFee(c, rq)));
    HoldKeepsCharges(charged, c.burnRate, EscrowOf(rq), c.messageFee, w.holdAccount);
    var held := CreateEscrow(charged, c.burnRate, EscrowOf(rq), c.messageFee, w.holdAccount);
    if held.Some? {
      RestKeepsRecord(c, s.(bank := held.value), rq, w, [GasCharged, EscrowHeld], rq.payer, GasFee(c, rq));
    } else {
      RefundKeepsRecord(charged, Op(rq), rq.payer, GasFee(c, rq));
    }
  }

  lemma ChargeIsOnRecord(c: Config, s: State, rq: Request, w: Answers)
    ensures !Standing(s.bank, Op(rq)) && Send(c, s, rq, w).trace != [] ==>
      OnRecord(Send(c, s, rq, w).state.bank, Op(rq), rq.payer, Min(FullGas(c, rq), c.maxFeeCap))
  {
    hide Send, Standing, OnRecord, FullGas;
    if !Standing(s.bank, Op(rq)) && Send(c, s, rq, w).trace != [] {
      ChargeOnRecord(c, s, rq, w);
    }
  }

  lemma PayKeepsCharges(b: Bank, payer: UserId, amount: nat, sinks: Amounts)
    ensures PayPools(b, payer, amount, sinks).Some? ==> PayPools(b, payer, amount, sinks).value.charges == b.charges
  {
  }

  lemma HoldKeepsCharges(b: Bank, bps: BasisPoints, id: EscrowId, amount: nat, account: UserId)
    ensures CreateEscrow(b, bps, id, amount, account).Some? ==> CreateEscrow(b, bps, id, amount, account).value.charges == b.charges
  {
    hide Burn;
  }

  lemma RefundKeepsRecord(b: Bank, op: OpId, payer: UserId, amount: nat)
    requires OnRecord(b, op, payer, amount)
    ensures OnRecord(OrElse(RefundGas(b, op), b), op, payer, amount)
  {
  }

  // ---------- every run of sends ----------

  ghost predicate SoundBank(b: Bank, b': Bank) {
    && (Covered(b) ==> Covered(b') && Supply(b') == Supply(b))
    && SettledStays(b, b')
  }

  lemma SoundBankTransitive(b: Bank, c: Bank, d: Bank)
    requires SoundBank(b, c) && SoundBank(c, d)
    ensures SoundBank(b, d)
  {
    hide Covered, Supply;
  }

  lemma SoundBankSelf(b: Bank)
    ensures SoundBank(b, b)
  {
  }

  lemma {:induction false} ChargeSound(shares: Shares, b: Bank, payer: UserId, amount: nat, op: OpId)
    ensures SoundBank(b, OrElse(ChargeGas(shares, b, payer, amount, op), b))
  {
    hide Covered, Supply, Split;
    if ChargeGas(shares, b, payer, amount, op).Some? && Covered(b) {
      ChargeKeeps(shares, b, payer, amount, op);
    }
  }

  lemma {:induction false} RefundGasSound(b: Bank, op: OpId)
    ensures SoundBank(b, OrElse(RefundGas(b, op), b))
  {
    hide Covered, Supply;
    if RefundGas(b, op).Some? && Covered(b) {
      RefundKeeps(b, op);
    }
  }

  lemma {:induction false} CommitSound(b: Bank, op: OpId)
    ensures SoundBank(b, OrElse(MarkCommitted(b, op), b))
  {
    hide Covered, Supply;
    if MarkCommitted(b, op).Some? && Covered(b) {
      CommitKeeps(b, op);
    }
  }

  lemma {:induction false} WalletsSound(b: Bank, b': Bank)
    requires OnlyWallets(b, b') && SettledStays(b, b')
    ensures SoundBank(b, b')
  {
    hide Covered, OnlyWallets, SettledStays;
    if Covered(b) {
      OnlyWalletsKeeps(b, b');
    }
  }

  lemma {:induction false} HoldSound(b: Bank, bps: BasisPoints, id: EscrowId, amount: nat, account: UserId)
    ensures SoundBank(b, OrElse(CreateEscrow(b, bps, id, amount, account), b))
  {
    hide OnlyWallets, SoundBank, Burn;
    SoundBankSelf(b);
    if CreateEscrow(b, bps, id, amount, account).Some? {
      HoldKeeps(b, bps, id, amount, account);
      WalletsSound(b, CreateEscrow(b, bps, id, amount, account).value);
    }
  }

  lemma {:induction false} ReleaseSound(b: Bank, bps: BasisPoints, id: EscrowId, account: UserId)
    ensures SoundBank(b, OrElse(ReleaseEscrow(b, bps, id, account), b))
  {
    hide OnlyWallets, SoundBank, Burn;
    SoundBankSelf(b);
    if ReleaseEscrow(b, bps, id, account).Some? {
      SettleKeeps(b, bps, id, account, b.escrows[id].recipient, Released);
      WalletsSound(b, ReleaseEscrow(b, bps, id, account).value);
    }
  }

  lemma {:induction false} RefundEscrowsSound(b: Bank, bps: BasisPoints, op: OpId, order: seq<EscrowId>, accounts: EscrowId -> UserId)
    ensures SoundBank(b, RefundEscrows(b, bps, op, order, accounts))
  {
    hide OnlyWallets, SoundBank, SettledStays, RefundEscrows;
    RefundEscrowsKeeps(b, bps, op, order, accounts);
    RefundEscrowsSettle(b, bps, op, order, accounts);
    WalletsSound(b, RefundEscrows(b, bps, op, order, accounts));
  }

  lemma {:induction false} StoragePaymentSound(b: Bank, payer: UserId, fee: nat)
    ensures SoundBank(b, OrElse(PayPools(b, payer, fee, StorageSinks(fee)), b))
  {
    hide Supply, Sum, Owed;
    if PayPools(b, payer, fee, StorageSinks(fee)).Some? && Covered(b) {
      PayPoolsConserves(b, payer, fee, StorageSinks(fee));
      var b' := PayPools(b, payer, fee, StorageSinks(fee)).value;
      forall pool: PoolType
        ensures Sum(Owed(b'.charges, pool)) <= b'.pools.Of(pool)
      {
        assert Sum(Owed(b.charges, pool)) <= b.pools.Of(pool);
      }
    }
  }

  lemma {:induction false} UndoSound(c: Config, s: State, rq: Request, w: Answers)
    ensures SoundBank(s.bank, RefundOperation(c, s, rq, w).bank)
  {
    hide SoundBank, RefundGas, RefundEscrows;
    var afterGas := OrElse(RefundGas(s.bank, Op(rq)), s.bank);
    RefundGasSound(s.bank, Op(rq));
    RefundEscrowsSound(afterGas, c.burnRate, Op(rq), w.refundOrder, w.refundAccounts);
    SoundBankTransitive(s.bank, afterGas, RefundOperation(c, s, rq, w).bank);
  }

  lemma {:induction false} AfterStorageSound(c: Config, s: State, rq: Request, w: Answers, trace: seq<Effect>)
    ensures SoundBank(s.bank, AfterStorage(c, s, rq, w, trace).state.bank)
  {
    hide SoundBank, ReleaseEscrow, MarkCommitted;
    SoundBankSelf(s.bank);
    var released := ReleaseEscrow(s.bank, c.burnRate, EscrowOf(rq), w.releaseAccount);
    ReleaseSound(s.bank, c.burnRate, EscrowOf(rq), w.releaseAccount);
    if released.Some? {
      CommitSound(released.value, Op(rq));
      SoundBankTransitive(s.bank, released.value, OrElse(MarkCommitted(released.value, Op(rq)), released.value));
    }
  }

  lemma {:induction false} AfterHoldSound(c: Config, s: State, rq: Request, w: Answers, trace: seq<Effect>)
    ensures SoundBank(s.bank, AfterHold(c, s, rq, w, trace).state.bank)
  {
    hide SoundBank, RefundOperation, AfterStorage, PayPools, StorageFee;
    SoundBankSelf(s.bank);
    UndoSound(c, s, rq, w);
    if w.submitted && w.finality == Reached {
      var fee := StorageFee(c, rq.contentLen);
      var t := trace + [TxSubmitted, Finalised];
      if fee == 0 {
        AfterStorageSound(c, s, rq, w, t);
      } else {
        var paid := PayPools(s.bank, rq.payer, fee, StorageSinks(fee));
        StoragePaymentSound(s.bank, rq.payer, fee);
        if paid.Some? {
          AfterStorageSound(c, s.(bank := paid.value), rq, w, t + [StoragePaid]);
          SoundBankTransitive(s.bank, paid.value, AfterStorage(c, s.(bank := paid.value), rq, w, t + [StoragePaid]).state.bank);
        }
      }
    }
  }

  /** One send creates and destroys no token, and never touches a settled escrow. */
  lemma {:induction false} SendIsSound(c: Config, s: State, rq: Request, w: Answers)
    ensures SoundBank(s.bank, Send(c, s, rq, w).state.bank)
  {
    hide SoundBank, ChargeGas, CreateEscrow, RefundGas, AfterHold, GasFee, StorageFee;
    SoundBankSelf(s.bank);
    var charged := ChargeGas(c.shares, s.bank, rq.payer, GasFee(c, rq), Op(rq));
    ChargeSound(c.shares, s.bank, rq.payer, GasFee(c, rq), Op(rq));
    if charged.Some? {
      var s1 := s.(bank := charged.value);
      var held := CreateEscrow(s1.bank, c.burnRate, EscrowOf(rq), c.messageFee, w.holdAccount);
      HoldSound(s1.bank, c.burnRate, EscrowOf(rq), c.messageFee, w.holdAccount);
      if held.Some? {
        var s2 := s1.(bank := held.value);
        AfterHoldSound(c, s2, rq, w, [GasCharged, EscrowHeld]);
        SoundBankTransitive(s.bank, s1.bank, s2.bank);
        SoundBankTransitive(s.bank, s2.bank, AfterHold(c, s2, rq, w, [GasCharged, EscrowHeld]).state.bank);
      } else {
        RefundGasSound(s1.bank, Op(rq));
        SoundBankTransitive(s.bank, s1.bank, OrElse(RefundGas(s1.bank, Op(rq)), s1.bank));
      }
    }
  }

  datatype Attempt = Attempt(request: Request, answers: Answers)

  function SendAll(c: Config, s: State, attempts: seq<Attempt>): State {
    if attempts == [] then s
    else
      var n := |attempts| - 1;
      Send(c, SendAll(c, s, attempts[..n]), attempts[n].request, attempts[n].answers).state
  }

  /** Content is held only for operations with a released escrow. */
  ghost predicate StoredArePaid(s: State) {
    forall op | op in s.stored :: exists id: EscrowId :: PaidBy(s.bank, op, id)
  }

  ghost predicate PaidBy(b: Bank, op: OpId, id: EscrowId) {
    id in b.escrows && id.0 == op && b.escrows[id].status == Released
  }

  lemma {:induction false} SendKeepsPaid(c: Config, s: State, rq: Request, w: Answers)
    requires StoredArePaid(s)
    ensures StoredArePaid(Send(c, s, rq, w).state)
  {
    hide Send;
    var r := Send(c, s, rq, w);
    SendIsSound(c, s, rq, w);
    StoredOnlyAfterEverything(c, s, rq, w);
    forall op | op in r.state.stored
      ensures exists id: EscrowId :: PaidBy(r.state.bank, op, id)
    {
      if op in s.stored {
        var id: EscrowId :| PaidBy(s.bank, op, id);
        assert PaidBy(r.state.bank, op, id);
      } else {
        assert PaidBy(r.state.bank, op, EscrowOf(rq));
      }
    }
  }

  /**
   Over any sequence of sends, whatever the outside answers: the total of wallets, pools and
   burned tokens stays what it was, pools can always pay the refunds they owe, no settled escrow
   is settled again, and stored content is always paid for.
   */
  lemma {:induction false} RunsAreSound(c: Config, s: State, attempts: seq<Attempt>)
    requires Covered(s.bank) && StoredArePaid(s)
    ensures var s' := SendAll(c, s, attempts);
            && Covered(s'.bank) && Supply(s'.bank) == Supply(s.bank)
            && SettledStays(s.bank, s'.bank)
            && StoredArePaid(s')
  {
    hide Send, Covered, Supply, StoredArePaid;
    if attempts != [] {
      var n := |attempts| - 1;
      RunsAreSound(c, s, attempts[..n]);
      var mid := SendAll(c, s, attempts[..n]);
      SendIsSound(c, mid, attempts[n].request, attempts[n].answers);
      SendKeepsPaid(c, mid, attempts[n].request, attempts[n].answers);
    }
  }
}
