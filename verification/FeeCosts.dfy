/**
 What a fee-gated send costs its payer, and when it is delivered: for every state of the bank,
 first attempts and repeats alike, whichever relay and accounts are drawn.
 */
module FeeCosts {
  import opened Bytes
  import opened MapSums
  import opened FeeOrchestrator
  import opened FeeGateway

  // ---------- what is still to be paid ----------

  function When(condition: bool, amount: nat): nat {
    if condition then amount else 0
  }

  function GasDue(c: Config, s: State, rq: Request): nat {
    When(!Standing(s.bank, Op(rq)), GasFee(c, rq))
  }

  /** The drawn relay has no escrow of this operation yet. */
  predicate NewEscrow(s: State, rq: Request) {
    EscrowOf(rq) !in s.bank.escrows
  }

  function HoldDue(c: Config, s: State, rq: Request): nat {
    When(NewEscrow(s, rq), c.messageFee)
  }

  /** What arrives at the account of the hold. */
  function HoldCredit(c: Config, s: State, rq: Request): nat {
    When(NewEscrow(s, rq), c.messageFee - Burn(c.burnRate, c.messageFee))
  }

  function EscrowAmount(c: Config, s: State, rq: Request): nat {
    if NewEscrow(s, rq) then c.messageFee else s.bank.escrows[EscrowOf(rq)].amount
  }

  // ---------- how each step moves a wallet ----------

  lemma {:induction false} TransferMoves(b: Bank, bps: BasisPoints, from: UserId, to: UserId, amount: nat, u: UserId)
    requires Transfer(b, bps, from, to, amount).Some?
    ensures var b' := Transfer(b, bps, from, to, amount).value;
            && Balance(b', u) == Balance(b, u) - When(u == from, amount) + When(u == to, amount - Burn(bps, amount))
            && (u in b'.wallets <==> u in b.wallets || u == to)
  {
    hide Burn;
  }

  lemma {:induction false} PayMoves(b: Bank, payer: UserId, amount: nat, sinks: Amounts, u: UserId)
    ensures PayPools(b, payer, amount, sinks).Some? <==> Balance(b, payer) >= amount
    ensures PayPools(b, payer, amount, sinks).Some? ==>
      var b' := PayPools(b, payer, amount, sinks).value;
      && Balance(b', u) == Balance(b, u) - When(u == payer, amount)
      && (u in b'.wallets <==> u in b.wallets)
      && b'.charges == b.charges && b'.escrows == b.escrows
  {
  }

  function AfterGas(c: Config, s: State, rq: Request): Option<Bank> {
    ChargeGas(c.shares, s.bank, rq.payer, GasFee(c, rq), Op(rq))
  }

  lemma {:induction false} GasMoves(c: Config, s: State, rq: Request, u: UserId)
    ensures AfterGas(c, s, rq).Some? <==> Balance(s.bank, rq.payer) >= GasDue(c, s, rq)
    ensures AfterGas(c, s, rq).Some? ==>
      var b := AfterGas(c, s, rq).value;
      && Balance(b, u) == Balance(s.bank, u) - When(u == rq.payer, GasDue(c, s, rq))
      && (u in b.wallets <==> u in s.bank.wallets)
      && b.escrows == s.bank.escrows && Standing(b, Op(rq))
      && b.charges[Op(rq)] == if Standing(s.bank, Op(rq)) then s.bank.charges[Op(rq)]
                              else Charge(rq.payer, GasFee(c, rq), Split(c.shares, GasFee(c, rq)), Charged)
  {
    hide GasFee, Split, RoundedShare, PayPools;
    PayMoves(s.bank, rq.payer, GasFee(c, rq), Split(c.shares, GasFee(c, rq)), u);
  }

  function AfterHolding(c: Config, s: State, rq: Request, w: Answers): Option<Bank> {
    match AfterGas(c, s, rq)
    case None => None
    case Some(b) => CreateEscrow(b, c.burnRate, EscrowOf(rq), c.messageFee, w.holdAccount)
  }

  lemma {:induction false} EscrowMoves(b: Bank, bps: BasisPoints, id: EscrowId, amount: nat, account: UserId, u: UserId)
    ensures CreateEscrow(b, bps, id, amount, account).Some?
       <==> id in b.escrows || (id.1 in b.wallets && Balance(b, id.1) >= amount)
    ensures CreateEscrow(b, bps, id, amount, account).Some? ==>
      var b' := CreateEscrow(b, bps, id, amount, account).value;
      var isNew := id !in b.escrows;
      && Balance(b', u) == Balance(b, u) - When(isNew && u == id.1, amount) + When(isNew && u == account, amount - Burn(bps, amount))
      && (u in b'.wallets <==> u in b.wallets || (isNew && u == account))
      && b'.charges == b.charges
      && b'.escrows == if isNew then b.escrows[id := Escrow(id.1, id.2, amount, Held)] else b.escrows
  {
    if id !in b.escrows && Transfer(b, bps, id.1, account, amount).Some? {
      TransferMoves(b, bps, id.1, account, amount, u);
    }
    hide Burn;
  }

  /** The escrows once the drawn relay has one. */
  function EscrowsThen(c: Config, s: State, rq: Request): map<EscrowId, Escrow> {
    if NewEscrow(s, rq) then s.bank.escrows[EscrowOf(rq) := Escrow(rq.payer, rq.relay, c.messageFee, Held)] else s.bank.escrows
  }

  lemma {:induction false} HoldingMoves(c: Config, s: State, rq: Request, w: Answers, u: UserId)
    ensures AfterHolding(c, s, rq, w).Some?
       <==> && Balance(s.bank, rq.payer) >= GasDue(c, s, rq) + HoldDue(c, s, rq)
            && (NewEscrow(s, rq) ==> rq.payer in s.bank.wallets)
    ensures AfterHolding(c, s, rq, w).Some? ==>
      var b := AfterHolding(c, s, rq, w).value;
      && Balance(b, u) == Balance(s.bank, u) - When(u == rq.payer, GasDue(c, s, rq) + HoldDue(c, s, rq))
                          + When(u == w.holdAccount, HoldCredit(c, s, rq))
      && (u in b.wallets <==> u in s.bank.wallets || (NewEscrow(s, rq) && u == w.holdAccount))
      && b.escrows == EscrowsThen(c, s, rq)
      && Standing(b, Op(rq)) && b.charges == AfterGas(c, s, rq).value.charges
  {
    hide GasFee, ChargeGas, CreateEscrow, Balance, Burn;
    GasMoves(c, s, rq, u);
    GasMoves(c, s, rq, rq.payer);
    if AfterGas(c, s, rq).Some? {
      EscrowMoves(AfterGas(c, s, rq).value, c.burnRate, EscrowOf(rq), c.messageFee, w.holdAccount, u);
    }
  }

  // ---------- escrows that a refund returns ----------

  /** The escrow was open before and is returned afterwards. */
  predicate ReturnedNow(before: Bank, after: Bank, id: EscrowId) {
    && id in after.escrows && after.escrows[id].status == Returned
    && (id in before.escrows ==> before.escrows[id].status == Held)
  }

  /** What the returned escrows bring to `u`: the amount less the burn. */
  function Gains(before: Bank, after: Bank, bps: BasisPoints, u: UserId): map<EscrowId, nat> {
    map id | id in after.escrows ::
      var e := after.escrows[id];
      When(ReturnedNow(before, after, id) && e.payer == u, e.amount - Burn(bps, e.amount))
  }

  /** What they take from `u`, should an account drawn for a refund be `u`'s own. */
  function Losses(before: Bank, after: Bank, accounts: EscrowId -> UserId, u: UserId): map<EscrowId, nat> {
    map id | id in after.escrows :: When(ReturnedNow(before, after, id) && accounts(id) == u, after.escrows[id].amount)
  }

  lemma {:induction false} NothingReturned(b: Bank, bps: BasisPoints, accounts: EscrowId -> UserId, u: UserId)
    ensures Sum(Gains(b, b, bps, u)) == 0 && Sum(Losses(b, b, accounts, u)) == 0
  {
    hide Sum, Burn;
    AllZero(Gains(b, b, bps, u));
    AllZero(Losses(b, b, accounts, u));
  }

  lemma {:induction false} AllZero<K>(m: map<K, nat>)
    requires forall k | k in m :: m[k] == 0
    ensures Sum(m) == 0
  {
    NoneOver(m, m.Keys);
  }

  lemma {:induction false} NoneOver<K>(m: map<K, nat>, keys: set<K>)
    requires keys <= m.Keys && forall k | k in m :: m[k] == 0
    ensures SumOver(m, keys) == 0
    decreases keys
  {
    if keys != {} {
      var k :| k in keys;
      SumOverRemove(m, keys, k);
      NoneOver(m, keys - {k});
    }
  }

  lemma {:induction false} TryRefundMoves(b: Bank, bps: BasisPoints, op: OpId, id: EscrowId, account: UserId, u: UserId)
    ensures var b' := TryRefund(b, bps, op, id, account);
            var paid := id.0 == op && IsHeld(b, id) && account in b.wallets && b.wallets[account] >= b.escrows[id].amount;
            if !paid then b' == b
            else
              var e := b.escrows[id];
              && Balance(b', u) == Balance(b, u) - When(u == account, e.amount) + When(u == e.payer, e.amount - Burn(bps, e.amount))
              && (u in b'.wallets <==> u in b.wallets || u == e.payer)
              && b'.escrows == b.escrows[id := e.(status := Returned)] && b'.charges == b.charges
  {
    hide Burn;
    if id.0 == op && IsHeld(b, id) && Transfer(b, bps, account, b.escrows[id].payer, b.escrows[id].amount).Some? {
      TransferMoves(b, bps, account, b.escrows[id].payer, b.escrows[id].amount, u);
    }
  }

  lemma {:induction false} OneMoreGain(b: Bank, m: Bank, m': Bank, bps: BasisPoints, id: EscrowId, u: UserId)
    requires IsHeld(m, id) && m'.escrows == m.escrows[id := m.escrows[id].(status := Returned)]
    requires id in b.escrows ==> b.escrows[id].status == Held
    ensures var e := m.escrows[id];
            Sum(Gains(b, m', bps, u)) == Sum(Gains(b, m, bps, u)) + When(e.payer == u, e.amount - Burn(bps, e.amount))
  {
    hide Sum, Burn;
    var e := m.escrows[id];
    var gain := When(e.payer == u, e.amount - Burn(bps, e.amount));
    assert Gains(b, m', bps, u) == Gains(b, m, bps, u)[id := gain];
    SumUpdate(Gains(b, m, bps, u), id, gain);
  }

  lemma {:induction false} OneMoreLoss(b: Bank, m: Bank, m': Bank, accounts: EscrowId -> UserId, id: EscrowId, u: UserId)
    requires IsHeld(m, id) && m'.escrows == m.escrows[id := m.escrows[id].(status := Returned)]
    requires id in b.escrows ==> b.escrows[id].status == Held
    ensures var e := m.escrows[id];
            Sum(Losses(b, m', accounts, u)) == Sum(Losses(b, m, accounts, u)) + When(accounts(id) == u, e.amount)
  {
    hide Sum;
    var loss := When(accounts(id) == u, m.escrows[id].amount);
    assert Losses(b, m', accounts, u) == Losses(b, m, accounts, u)[id := loss];
    SumUpdate(Losses(b, m, accounts, u), id, loss);
  }

  /** The refund loop pays exactly for the escrows it returns, in any order and however often one is listed. */
  lemma {:induction false} RefundLoopCosts(b: Bank, bps: BasisPoints, op: OpId, order: seq<EscrowId>,
                                           accounts: EscrowId -> UserId, u: UserId)
    ensures var b' := RefundEscrows(b, bps, op, order, accounts);
            && Balance(b', u) + Sum(Losses(b, b', accounts, u)) == Balance(b, u) + Sum(Gains(b, b', bps, u))
            && b'.escrows.Keys == b.escrows.Keys && b'.charges == b.charges
  {
    hide Sum, Burn, Gains, Losses, TryRefund, Balance;
    if order == [] {
      NothingReturned(b, bps, accounts, u);
    } else {
      var n := |order| - 1;
      RefundLoopCosts(b, bps, op, order[..n], accounts, u);
      RefundEscrowsSettle(b, bps, op, order[..n], accounts);
      var m := RefundEscrows(b, bps, op, order[..n], accounts);
      var id := order[n];
      TryRefundMoves(m, bps, op, id, accounts(id), u);
      var m' := TryRefund(m, bps, op, id, accounts(id));
      if m' != m {
        OneMoreGain(b, m, m', bps, id, u);
        OneMoreLoss(b, m, m', accounts, id, u);
      }
    }
  }

  // ---------- the bank at the end of each kind of run ----------

  /** The failures after which everything is refunded. */
  predicate Refunding(rq: Request, w: Answers, outcome: Outcome) {
    outcome == SubmitFailed || (outcome == FinalityFailed && (rq.kind == Direct || w.finality == NotReached))
  }

  /** The bank after the blob payment. */
  function AfterPaying(c: Config, b: Bank, rq: Request): Option<Bank> {
    var fee := StorageFee(c, rq.contentLen);
    PayPools(b, rq.payer, fee, StorageSinks(fee))
  }

  lemma {:induction false} EarlyEnd(c: Config, s: State, rq: Request, w: Answers)
    ensures var r := Send(c, s, rq, w);
            && (r.outcome in {TooLarge, AlreadyDone, InsufficientBalance, GasFailed} ==> r.state == s)
            && (r.outcome == EscrowFailed ==>
                  && AfterGas(c, s, rq).Some? && AfterHolding(c, s, rq, w).None?
                  && r.state.bank == OrElse(RefundGas(AfterGas(c, s, rq).value, Op(rq)), AfterGas(c, s, rq).value))
            && (r.outcome !in {TooLarge, AlreadyDone, InsufficientBalance, GasFailed, EscrowFailed} ==>
                  && AfterHolding(c, s, rq, w).Some?
                  && r == AfterHold(c, s.(bank := AfterHolding(c, s, rq, w).value), rq, w, [GasCharged, EscrowHeld]))
  {
    hide GasFee, StorageFee, RefundGas, RefundEscrows, ChargeGas, CreateEscrow, ReleaseEscrow, PayPools, MarkCommitted;
  }

  lemma {:induction false} LateEnd(c: Config, s: State, rq: Request, w: Answers, trace: seq<Effect>)
    ensures var r := AfterHold(c, s, rq, w, trace);
            && (Refunding(rq, w, r.outcome) ==> r.state.bank == RefundOperation(c, s, rq, w).bank)
            && (r.outcome == FinalityFailed && !Refunding(rq, w, r.outcome) ==> r.state.bank == s.bank)
            && (r.outcome == StoragePaymentFailed ==> r.state.bank == s.bank)
            && (r.outcome == ReleaseFailed ==> AfterPaying(c, s.bank, rq) == Some(r.state.bank))
            && (r.outcome in {Delivered, CommitFailed} ==>
                  && AfterPaying(c, s.bank, rq).Some?
                  && var released := ReleaseEscrow(AfterPaying(c, s.bank, rq).value, c.burnRate, EscrowOf(rq), w.releaseAccount);
                     && released.Some?
                     && r.state.bank == OrElse(MarkCommitted(released.value, Op(rq)), released.value))
  {
    hide StorageFee, RefundOperation, ReleaseEscrow, MarkCommitted;
  }

  // ---------- what each kind of run costs ----------

  /** A charge of this payer that stood before the call and can still be refunded. */
  function StoodGas(s: State, rq: Request): nat {
    if Charged?(s.bank, Op(rq)) && s.bank.charges[Op(rq)].payer == rq.payer then s.bank.charges[Op(rq)].amount else 0
  }

  lemma {:induction false} RefundGasMoves(b: Bank, op: OpId, u: UserId)
    ensures var b' := OrElse(RefundGas(b, op), b);
            && b'.escrows == b.escrows
            && Balance(b', u) == Balance(b, u) + (if Charged?(b, op) && b.charges[op].payer == u then b.charges[op].amount else 0)
            && (u in b.wallets ==> u in b'.wallets)
            && (u in b'.wallets && u !in b.wallets ==> Charged?(b, op) && b.charges[op].payer == u)
  {
  }

  /** Charging and refunding gas gives the payer what an earlier charge had taken, and nothing else. */
  lemma {:induction false} GasComesBack(c: Config, s: State, rq: Request, b: Bank)
    requires AfterGas(c, s, rq).Some? && b.charges == AfterGas(c, s, rq).value.charges
    ensures var b' := OrElse(RefundGas(b, Op(rq)), b);
            Balance(b', rq.payer) == Balance(b, rq.payer) + GasDue(c, s, rq) + StoodGas(s, rq)
  {
    hide GasFee, ChargeGas, RefundGas, Balance, Split, RoundedShare;
    GasMoves(c, s, rq, rq.payer);
    RefundGasMoves(b, Op(rq), rq.payer);
  }

  /** If the escrow cannot be created, the payer gains an earlier charge of the operation, if one stood. */
  lemma {:induction false} FailedHoldCost(c: Config, s: State, rq: Request, w: Answers)
    requires Send(c, s, rq, w).outcome == EscrowFailed
    ensures Balance(Send(c, s, rq, w).state.bank, rq.payer) == Balance(s.bank, rq.payer) + StoodGas(s, rq)
  {
    hide Send, AfterGas, AfterHolding, Balance, StoodGas, GasDue, RefundGas;
    EarlyEnd(c, s, rq, w);
    GasMoves(c, s, rq, rq.payer);
    GasComesBack(c, s, rq, AfterGas(c, s, rq).value);
  }

  lemma {:induction false} GainsFrom(c: Config, s: State, rq: Request, b: Bank, after: Bank, bps: BasisPoints,
                                     accounts: EscrowId -> UserId, u: UserId)
    requires b.escrows == EscrowsThen(c, s, rq)
    ensures Gains(s.bank, after, bps, u) == Gains(b, after, bps, u)
    ensures Losses(s.bank, after, accounts, u) == Losses(b, after, accounts, u)
  {
    hide Burn;
    assert forall id | id in after.escrows :: ReturnedNow(s.bank, after, id) == ReturnedNow(b, after, id);
  }

  /**
   Any failure before finality, in any state: the payer pays the message fee if the drawn relay
   had no escrow yet, and gets back an earlier charge of the operation and, less the burn, every
   escrow of his that the refund returns.
   */
  lemma {:induction false} FailedSendCost(c: Config, s: State, rq: Request, w: Answers)
    requires Refunding(rq, w, Send(c, s, rq, w).outcome)
    ensures var after := Send(c, s, rq, w).state.bank;
            Balance(after, rq.payer) + HoldDue(c, s, rq) + Sum(Losses(s.bank, after, w.refundAccounts, rq.payer))
            == Balance(s.bank, rq.payer) + StoodGas(s, rq) + When(w.holdAccount == rq.payer, HoldCredit(c, s, rq))
               + Sum(Gains(s.bank, after, c.burnRate, rq.payer))
  {
    hide Send, AfterGas, AfterHolding, AfterHold, Balance, StoodGas, GasDue, HoldDue, HoldCredit, RefundGas, RefundEscrows,
         Gains, Losses, Sum, EscrowsThen, NewEscrow;
    EarlyEnd(c, s, rq, w);
    var held := AfterHolding(c, s, rq, w).value;
    var s2 := s.(bank := held);
    LateEnd(c, s2, rq, w, [GasCharged, EscrowHeld]);
    HoldingMoves(c, s, rq, w, rq.payer);
    HoldsAfterGas(c, s, rq, w);
    GasComesBack(c, s, rq, held);
    RefundGasMoves(held, Op(rq), rq.payer);
    var refunded := OrElse(RefundGas(held, Op(rq)), held);
    RefundLoopCosts(refunded, c.burnRate, Op(rq), w.refundOrder, w.refundAccounts, rq.payer);
    var after := RefundEscrows(refunded, c.burnRate, Op(rq), w.refundOrder, w.refundAccounts);
    GainsFrom(c, s, rq, refunded, after, c.burnRate, w.refundAccounts, rq.payer);
  }

  lemma HoldsAfterGas(c: Config, s: State, rq: Request, w: Answers)
    requires AfterHolding(c, s, rq, w).Some?
    ensures AfterGas(c, s, rq).Some?
  {
    hide AfterGas;
  }

  /** What the payer has paid once the fee is on hold, less what his own account received. */
  function HeldCost(c: Config, s: State, rq: Request, w: Answers): int {
    GasDue(c, s, rq) + HoldDue(c, s, rq) - When(w.holdAccount == rq.payer, HoldCredit(c, s, rq))
  }

  /** A failure that refunds nothing keeps gas and message fee, the latter on hold. */
  lemma {:induction false} UnrefundedCost(c: Config, s: State, rq: Request, w: Answers)
    requires var o := Send(c, s, rq, w).outcome;
             o == StoragePaymentFailed || (o == FinalityFailed && !Refunding(rq, w, o))
    ensures var b := Send(c, s, rq, w).state.bank;
            && Balance(b, rq.payer) == Balance(s.bank, rq.payer) - HeldCost(c, s, rq, w)
            && Standing(b, Op(rq)) && b.escrows == EscrowsThen(c, s, rq)
  {
    hide Send, AfterHolding, AfterHold, Balance, GasDue, HoldDue, HoldCredit, EscrowsThen, NewEscrow;
    EarlyEnd(c, s, rq, w);
    LateEnd(c, s.(bank := AfterHolding(c, s, rq, w).value), rq, w, [GasCharged, EscrowHeld]);
    HoldingMoves(c, s, rq, w, rq.payer);
  }

  /** A failed release keeps all fees, the payment for storage included, at every repeat. */
  lemma {:induction false} UnreleasedCost(c: Config, s: State, rq: Request, w: Answers)
    requires Send(c, s, rq, w).outcome == ReleaseFailed
    ensures var b := Send(c, s, rq, w).state.bank;
            && Balance(b, rq.payer) == Balance(s.bank, rq.payer) - HeldCost(c, s, rq, w) - StorageFee(c, rq.contentLen)
            && Standing(b, Op(rq)) && b.escrows == EscrowsThen(c, s, rq)
  {
    hide Send, AfterHolding, AfterHold, Balance, GasDue, HoldDue, HoldCredit, EscrowsThen, NewEscrow, StorageFee, PayPools;
    EarlyEnd(c, s, rq, w);
    var held := AfterHolding(c, s, rq, w).value;
    LateEnd(c, s.(bank := held), rq, w, [GasCharged, EscrowHeld]);
    HoldingMoves(c, s, rq, w, rq.payer);
    var fee := StorageFee(c, rq.contentLen);
    PayMoves(held, rq.payer, fee, StorageSinks(fee), rq.payer);
  }

  /**
   A repeat after a failed release.  With the same relay it pays for storage only.  With another
   relay, one that has no escrow of the operation yet, it pays the message fee a second time: both
   escrows are then on hold.
   */
  lemma {:induction false} RepeatCost(c: Config, s: State, rq: Request, w: Answers, first: UserId)
    requires Standing(s.bank, Op(rq)) && IsHeld(s.bank, (Op(rq), rq.payer, first)) && w.holdAccount != rq.payer
    requires (rq.relay != first ==> NewEscrow(s, rq)) && Send(c, s, rq, w).outcome == ReleaseFailed
    ensures var b := Send(c, s, rq, w).state.bank;
            && Balance(b, rq.payer) == Balance(s.bank, rq.payer) - When(rq.relay != first, c.messageFee) - StorageFee(c, rq.contentLen)
            && IsHeld(b, (Op(rq), rq.payer, first)) && IsHeld(b, EscrowOf(rq))
  {
    hide Send, Balance, StorageFee, GasFee;
    UnreleasedCost(c, s, rq, w);
  }

  // ---------- when a send is delivered ----------

  predicate Admitted(c: Config, s: State, rq: Request) {
    && (rq.kind == Direct ==> rq.contentLen <= MAX_MESSAGE_SIZE)
    && !(Op(rq) in s.mappings && s.mappings[Op(rq)] == Success)
    && Balance(s.bank, rq.payer) >= Required(c, rq)
  }

  /** The payer's wallet covers every step, which the balance check ensures only while its sum does not wrap. */
  predicate PayerCovers(c: Config, s: State, rq: Request, w: Answers) {
    && Balance(s.bank, rq.payer) >= GasDue(c, s, rq) + HoldDue(c, s, rq)
    && (NewEscrow(s, rq) ==> rq.payer in s.bank.wallets)
    && Balance(s.bank, rq.payer) >= HeldCost(c, s, rq, w) + StorageFee(c, rq.contentLen)
  }

  /** The drawn relay has no escrow of this operation yet, or one that is still held. */
  predicate EscrowOpen(s: State, rq: Request) {
    NewEscrow(s, rq) || s.bank.escrows[EscrowOf(rq)].status == Held
  }

  /** The release account's balance when its turn comes. */
  function ReleaseFunds(c: Config, s: State, rq: Request, w: Answers): int {
    Balance(s.bank, w.releaseAccount)
    - When(w.releaseAccount == rq.payer, GasDue(c, s, rq) + HoldDue(c, s, rq) + StorageFee(c, rq.contentLen))
    + When(w.releaseAccount == w.holdAccount, HoldCredit(c, s, rq))
  }

  predicate ReleaseCovers(c: Config, s: State, rq: Request, w: Answers) {
    && (w.releaseAccount in s.bank.wallets || (NewEscrow(s, rq) && w.releaseAccount == w.holdAccount))
    && ReleaseFunds(c, s, rq, w) >= EscrowAmount(c, s, rq)
  }

  lemma {:induction false} ReleasesIff(b: Bank, bps: BasisPoints, id: EscrowId, account: UserId)
    ensures ReleaseEscrow(b, bps, id, account).Some?
       <==> IsHeld(b, id) && account in b.wallets && b.wallets[account] >= b.escrows[id].amount
    ensures ReleaseEscrow(b, bps, id, account).Some? ==> ReleaseEscrow(b, bps, id, account).value.charges == b.charges
  {
    hide Burn;
  }

  /** Up to the hold. */
  lemma {:induction false} GetsOnHoldIff(c: Config, s: State, rq: Request, w: Answers)
    ensures var r := Send(c, s, rq, w);
            && (Admitted(c, s, rq) && AfterHolding(c, s, rq, w).Some? ==>
                  r == AfterHold(c, s.(bank := AfterHolding(c, s, rq, w).value), rq, w, [GasCharged, EscrowHeld]))
            && (r.outcome == Delivered ==> Admitted(c, s, rq) && AfterHolding(c, s, rq, w).Some?)
  {
    hide GasFee, StorageFee, RefundGas, ChargeGas, CreateEscrow, AfterHold, Balance;
  }

  /** From the hold on. */
  lemma {:induction false} CompletesIff(c: Config, s: State, rq: Request, w: Answers, trace: seq<Effect>)
    requires Standing(s.bank, Op(rq))
    ensures AfterHold(c, s, rq, w, trace).outcome == Delivered
       <==> && w.submitted && w.finality == Reached && AfterPaying(c, s.bank, rq).Some?
            && ReleaseEscrow(AfterPaying(c, s.bank, rq).value, c.burnRate, EscrowOf(rq), w.releaseAccount).Some?
  {
    hide StorageFee, RefundOperation, ReleaseEscrow;
    if AfterPaying(c, s.bank, rq).Some? {
      var paid := AfterPaying(c, s.bank, rq).value;
      ReleasesIff(paid, c.burnRate, EscrowOf(rq), w.releaseAccount);
    }
  }

  /** The release, in terms of the state before the call. */
  lemma {:induction false} ReleaseCoversIff(c: Config, s: State, rq: Request, w: Answers, held: Bank)
    requires AfterHolding(c, s, rq, w) == Some(held)
    ensures AfterPaying(c, held, rq).Some?
       <==> Balance(s.bank, rq.payer) >= HeldCost(c, s, rq, w) + StorageFee(c, rq.contentLen)
    ensures AfterPaying(c, held, rq).Some? ==>
      (ReleaseEscrow(AfterPaying(c, held, rq).value, c.burnRate, EscrowOf(rq), w.releaseAccount).Some?
       <==> EscrowOpen(s, rq) && ReleaseCovers(c, s, rq, w))
  {
    hide AfterHolding, GasDue, HoldCredit, StorageFee, PayPools, ReleaseEscrow, Burn;
    HoldingMoves(c, s, rq, w, rq.payer);
    HoldingMoves(c, s, rq, w, w.releaseAccount);
    var fee := StorageFee(c, rq.contentLen);
    PayMoves(held, rq.payer, fee, StorageSinks(fee), rq.payer);
    PayMoves(held, rq.payer, fee, StorageSinks(fee), w.releaseAccount);
    if AfterPaying(c, held, rq).Some? {
      ReleasesIff(AfterPaying(c, held, rq).value, c.burnRate, EscrowOf(rq), w.releaseAccount);
    }
  }

  /**
   A send is delivered, in any state, if and only if it is admitted, the payer's wallet covers
   all steps, the message becomes final, the drawn relay's escrow is absent or held, and the
   account drawn for the release holds the amount when its turn comes.
   */
  lemma {:induction false} DeliveredIff(c: Config, s: State, rq: Request, w: Answers)
    ensures Send(c, s, rq, w).outcome == Delivered
       <==> && Admitted(c, s, rq) && PayerCovers(c, s, rq, w)
            && w.submitted && w.finality == Reached
            && EscrowOpen(s, rq) && ReleaseCovers(c, s, rq, w)
  {
    hide Send, AfterHolding, AfterHold, AfterPaying, Admitted, EscrowOpen, ReleaseCovers, ReleaseEscrow, Balance,
         GasDue, HoldDue, HoldCredit, HeldCost, StorageFee, NewEscrow;
    GetsOnHoldIff(c, s, rq, w);
    HoldingMoves(c, s, rq, w, rq.payer);
    if AfterHolding(c, s, rq, w).Some? {
      var held := AfterHolding(c, s, rq, w).value;
      CompletesIff(c, s.(bank := held), rq, w, [GasCharged, EscrowHeld]);
      ReleaseCoversIff(c, s, rq, w, held);
    }
  }

  /** While the sum of the fees does not wrap, the balance check already ensures that the payer covers them. */
  lemma {:induction false} AdmittedCovers(c: Config, s: State, rq: Request, w: Answers)
    requires Admitted(c, s, rq) && (NewEscrow(s, rq) ==> rq.payer in s.bank.wallets)
    requires GasFee(c, rq) + c.messageFee + StorageFee(c, rq.contentLen) <= U64_MAX
    ensures PayerCovers(c, s, rq, w)
  {
    hide GasFee, StorageFee, Burn;
    RequiredIsTheSumIff(c, rq);
  }

  lemma {:induction false} ReleaseMoves(b: Bank, bps: BasisPoints, id: EscrowId, account: UserId, op: OpId, u: UserId)
    requires ReleaseEscrow(b, bps, id, account).Some?
    ensures var released := ReleaseEscrow(b, bps, id, account).value;
            var e := b.escrows[id];
            Balance(OrElse(MarkCommitted(released, op), released), u)
            == Balance(b, u) - When(u == account, e.amount) + When(u == e.recipient, e.amount - Burn(bps, e.amount))
  {
    hide Burn;
    TransferMoves(b, bps, account, b.escrows[id].recipient, b.escrows[id].amount, u);
  }

  /** A delivered send costs what was still due, and the payment for storage. */
  lemma {:induction false} DeliveredCost(c: Config, s: State, rq: Request, w: Answers)
    requires Send(c, s, rq, w).outcome == Delivered && w.releaseAccount != rq.payer && RecordsMatch(s.bank)
    ensures var amount := EscrowAmount(c, s, rq);
            Balance(Send(c, s, rq, w).state.bank, rq.payer)
            == Balance(s.bank, rq.payer) - HeldCost(c, s, rq, w) - StorageFee(c, rq.contentLen)
               + When(rq.relay == rq.payer, amount - Burn(c.burnRate, amount))
  {
    hide Send, AfterHolding, AfterHold, Balance, GasDue, HoldDue, HoldCredit, StorageFee, PayPools, ReleaseEscrow, MarkCommitted, Burn;
    EarlyEnd(c, s, rq, w);
    var held := AfterHolding(c, s, rq, w).value;
    LateEnd(c, s.(bank := held), rq, w, [GasCharged, EscrowHeld]);
    HoldingMoves(c, s, rq, w, rq.payer);
    var fee := StorageFee(c, rq.contentLen);
    PayMoves(held, rq.payer, fee, StorageSinks(fee), rq.payer);
    ReleaseMoves(AfterPaying(c, held, rq).value, c.burnRate, EscrowOf(rq), w.releaseAccount, Op(rq), rq.payer);
  }

  // ---------- what follows for repeats ----------

  function FriendlyAnswers(account: UserId): Answers {
    Answers(account, true, Reached, account, true, [], _ => account)
  }

  /**
   For an admitted operation of a payer with a wallet, and as soon as some other wallet could pay
   the escrow, delivery is possible if and only if the drawn relay's escrow is absent or held.
   */
  lemma {:induction false} DeliveryPossibleIff(c: Config, s: State, rq: Request, rich: UserId)
    requires Admitted(c, s, rq) && rq.payer in s.bank.wallets
    requires GasFee(c, rq) + c.messageFee + StorageFee(c, rq.contentLen) <= U64_MAX
    requires rich != rq.payer && rich in s.bank.wallets && s.bank.wallets[rich] >= EscrowAmount(c, s, rq)
    ensures (exists w: Answers :: Send(c, s, rq, w).outcome == Delivered) <==> EscrowOpen(s, rq)
  {
    hide Send, GasFee, StorageFee, Burn, Required;
    if EscrowOpen(s, rq) {
      var w := FriendlyAnswers(rich);
      AdmittedCovers(c, s, rq, w);
      DeliveredIff(c, s, rq, w);
      assert Send(c, s, rq, w).outcome == Delivered;
    } else {
      forall w: Answers
        ensures Send(c, s, rq, w).outcome != Delivered
      {
        DeliveredIff(c, s, rq, w);
      }
    }
  }

  /** After its escrow was returned an operation is never delivered through that relay, but can be through another. */
  lemma {:induction false} ReturnedRelayMustBeReplaced(c: Config, s: State, rq: Request, other: UserId, rich: UserId)
    requires !NewEscrow(s, rq) && s.bank.escrows[EscrowOf(rq)].status == Returned && NewEscrow(s, rq.(relay := other))
    requires Admitted(c, s, rq) && rq.payer in s.bank.wallets
    requires GasFee(c, rq) + c.messageFee + StorageFee(c, rq.contentLen) <= U64_MAX
    requires rich != rq.payer && rich in s.bank.wallets && s.bank.wallets[rich] >= c.messageFee
    ensures forall w: Answers :: Send(c, s, rq, w).outcome != Delivered
    ensures exists w: Answers :: Send(c, s, rq.(relay := other), w).outcome == Delivered
  {
    hide Send, GasFee, StorageFee, Burn;
    forall w: Answers
      ensures Send(c, s, rq, w).outcome != Delivered
    {
      DeliveredIff(c, s, rq, w);
    }
    SameFees(c, s, rq, other);
    DeliveryPossibleIff(c, s, rq.(relay := other), rich);
  }

  /** No fee depends on the relay. */
  lemma SameFees(c: Config, s: State, rq: Request, other: UserId)
    ensures var rq' := rq.(relay := other);
            Op(rq') == Op(rq) && GasFee(c, rq') == GasFee(c, rq) && (Admitted(c, s, rq') <==> Admitted(c, s, rq))
  {
  }

  /** A release account without a wallet delivers nothing, in any state. */
  lemma {:induction false} FreshAccountNeverDelivers(c: Config, s: State, rq: Request, w: Answers)
    requires w.releaseAccount !in s.bank.wallets && w.releaseAccount != w.holdAccount
    ensures Send(c, s, rq, w).outcome != Delivered && Send(c, s, rq, w).state.stored == s.stored
  {
    hide Send, FullTrace;
    DeliveredIff(c, s, rq, w);
    StoredOnlyAfterEverything(c, s, rq, w);
    CommitNeverFails(c, s, rq, w);
  }

  /** The charge always stands when it is committed. */
  lemma {:induction false} CommitNeverFails(c: Config, s: State, rq: Request, w: Answers)
    ensures Send(c, s, rq, w).outcome != CommitFailed
  {
    hide Send, AfterHolding, Balance, GasDue, HoldDue, HoldCredit, HeldCost, StorageFee, NewEscrow, ReleaseEscrow, RefundOperation;
    EarlyEnd(c, s, rq, w);
    HoldingMoves(c, s, rq, w, rq.payer);
    if AfterHolding(c, s, rq, w).Some? {
      CompletionCommits(c, s.(bank := AfterHolding(c, s, rq, w).value), rq, w, [GasCharged, EscrowHeld]);
    }
  }

  lemma {:induction false} CompletionCommits(c: Config, s: State, rq: Request, w: Answers, trace: seq<Effect>)
    requires Standing(s.bank, Op(rq))
    ensures AfterHold(c, s, rq, w, trace).outcome != CommitFailed
  {
    hide StorageFee, RefundOperation, ReleaseEscrow;
    var fee := StorageFee(c, rq.contentLen);
    var paid := OrElse(PayPools(s.bank, rq.payer, fee, StorageSinks(fee)), s.bank);
    ReleasesIff(paid, c.burnRate, EscrowOf(rq), w.releaseAccount);
    ReleasesIff(s.bank, c.burnRate, EscrowOf(rq), w.releaseAccount);
  }

  /** With fees whose sum does not wrap, neither charging gas nor paying for storage can fail. */
  lemma {:induction false} PaymentsNeverFail(c: Config, s: State, rq: Request, w: Answers)
    requires GasFee(c, rq) + c.messageFee + StorageFee(c, rq.contentLen) <= U64_MAX
    ensures Send(c, s, rq, w).outcome !in {GasFailed, StoragePaymentFailed}
  {
    hide GasFee, StorageFee, Burn, ReleaseEscrow, RefundOperation, RefundGas, MarkCommitted, RoundedShare, Split;
    RequiredIsTheSumIff(c, rq);
    GasMoves(c, s, rq, rq.payer);
    HoldingMoves(c, s, rq, w, rq.payer);
  }

  // ---------- which escrows come back ----------

  /** The accounts drawn for an operation's escrows are different, and none belongs to a payer. */
  ghost predicate DrawnApart(b: Bank, op: OpId, accounts: EscrowId -> UserId) {
    forall i, j | i in b.escrows && j in b.escrows && i.0 == op && j.0 == op ::
      (i != j ==> accounts(i) != accounts(j)) && accounts(i) != b.escrows[j].payer
  }

  ghost predicate CanReturn(b: Bank, id: EscrowId, account: UserId) {
    id in b.escrows && account in b.wallets && b.wallets[account] >= b.escrows[id].amount
  }

  ghost predicate SameWallet(b: Bank, b': Bank, u: UserId) {
    (u in b'.wallets <==> u in b.wallets) && (u in b.wallets ==> b'.wallets[u] == b.wallets[u])
  }

  /** Of any number of open escrows, exactly those come back that are listed and whose own account can pay. */
  lemma {:induction false} ReturnedIff(b: Bank, bps: BasisPoints, op: OpId, order: seq<EscrowId>,
                                       accounts: EscrowId -> UserId, id: EscrowId)
    requires DrawnApart(b, op, accounts) && IsHeld(b, id) && id.0 == op
    ensures var b' := RefundEscrows(b, bps, op, order, accounts);
            && id in b'.escrows
            && (b'.escrows[id].status == Returned <==> id in order && CanReturn(b, id, accounts(id)))
            && (b'.escrows[id].status != Returned ==> IsHeld(b', id) && SameWallet(b, b', accounts(id)))
  {
    hide TryRefund, DrawnApart, Burn;
    if order != [] {
      var n := |order| - 1;
      ReturnedIff(b, bps, op, order[..n], accounts, id);
      RefundEscrowsSettle(b, bps, op, order[..n], accounts);
      RefundEscrowsKeys(b, bps, op, order[..n], accounts);
      assert order == order[..n] + [order[n]];
      var m := RefundEscrows(b, bps, op, order[..n], accounts);
      ReturnStep(b, m, bps, op, accounts, order[n], id);
    }
  }

  lemma {:induction false} RefundEscrowsKeys(b: Bank, bps: BasisPoints, op: OpId, order: seq<EscrowId>, accounts: EscrowId -> UserId)
    ensures RefundEscrows(b, bps, op, order, accounts).escrows.Keys == b.escrows.Keys
  {
    hide TryRefund;
    if order != [] {
      var n := |order| - 1;
      RefundEscrowsKeys(b, bps, op, order[..n], accounts);
      TryRefundMoves(RefundEscrows(b, bps, op, order[..n], accounts), bps, op, order[n], accounts(order[n]), 0);
    }
  }

  lemma {:induction false} ReturnStep(b: Bank, m: Bank, bps: BasisPoints, op: OpId, accounts: EscrowId -> UserId,
                                      next: EscrowId, id: EscrowId)
    requires DrawnApart(b, op, accounts) && IsHeld(b, id) && id.0 == op && id in m.escrows
    requires SettledStays(b, m) && m.escrows.Keys == b.escrows.Keys
    requires m.escrows[id].status != Returned ==> IsHeld(m, id) && SameWallet(b, m, accounts(id))
    ensures var m' := TryRefund(m, bps, op, next, accounts(next));
            && id in m'.escrows
            && (m'.escrows[id].status == Returned
                <==> m.escrows[id].status == Returned || (next == id && CanReturn(b, id, accounts(id))))
            && (m'.escrows[id].status != Returned ==> IsHeld(m', id) && SameWallet(b, m', accounts(id)))
  {
    hide TryRefund, Burn;
    TryRefundMoves(m, bps, op, next, accounts(next), accounts(id));
  }

  // ---------- one open escrow ----------

  /** Records are kept under the ids they were made for. */
  ghost predicate RecordsMatch(b: Bank) {
    && (forall op | op in b.charges :: b.charges[op].payer == op.payer)
    && forall id | id in b.escrows :: b.escrows[id].payer == id.1 && b.escrows[id].recipient == id.2
  }

  /** With at most one open escrow of the operation, the refund loop is one attempt at that escrow. */
  lemma {:induction false} RefundsOnlyThisEscrow(b: Bank, bps: BasisPoints, op: OpId, id: EscrowId, order: seq<EscrowId>,
                                                 accounts: EscrowId -> UserId)
    requires forall j | j in b.escrows && j.0 == op && j != id :: b.escrows[j].status != Held
    ensures RefundEscrows(b, bps, op, order, accounts)
         == if id in order then TryRefund(b, bps, op, id, accounts(id)) else b
  {
    hide Burn;
    if order != [] {
      var n := |order| - 1;
      RefundsOnlyThisEscrow(b, bps, op, id, order[..n], accounts);
      assert order == order[..n] + [order[n]];
    }
  }

  /** The account drawn for the refund can return the drawn relay's escrow. */
  predicate Refundable(c: Config, s: State, rq: Request, w: Answers) {
    var account := w.refundAccounts(EscrowOf(rq));
    && EscrowOpen(s, rq)
    && (account in s.bank.wallets || (NewEscrow(s, rq) && account == w.holdAccount))
    && Balance(s.bank, account) + When(account == w.holdAccount, HoldCredit(c, s, rq)) >= EscrowAmount(c, s, rq)
  }

  /**
   A failure before finality when no other relay has an open escrow of the operation.  The payer
   is whole exactly when what stood or came back makes up for the newly held fee; on a first
   attempt that means no fee, or an account that can pay and a burn that rounds to zero.
   */
  lemma {:induction false} SoleEscrowCost(c: Config, s: State, rq: Request, w: Answers)
    requires RecordsMatch(s.bank) && Refunding(rq, w, Send(c, s, rq, w).outcome) && EscrowOf(rq) in w.refundOrder
    requires forall j | j in s.bank.escrows && j.0 == Op(rq) && j != EscrowOf(rq) :: s.bank.escrows[j].status != Held
    requires w.holdAccount != rq.payer && w.refundAccounts(EscrowOf(rq)) != rq.payer
    ensures var after := Balance(Send(c, s, rq, w).state.bank, rq.payer);
            var amount := EscrowAmount(c, s, rq);
            var back := When(Refundable(c, s, rq, w), amount - Burn(c.burnRate, amount));
            && after == Balance(s.bank, rq.payer) + StoodGas(s, rq) - HoldDue(c, s, rq) + back
            && (NewEscrow(s, rq) && !Standing(s.bank, Op(rq)) ==>
                  (after == Balance(s.bank, rq.payer)
                   <==> c.messageFee == 0 || (Refundable(c, s, rq, w) && Burn(c.burnRate, c.messageFee) == 0)))
  {
    hide Send, AfterGas, AfterHolding, AfterHold, GasDue, RefundGas, RefundEscrows, TryRefund, Burn;
    var id := EscrowOf(rq);
    var account := w.refundAccounts(id);
    EarlyEnd(c, s, rq, w);
    var held := AfterHolding(c, s, rq, w).value;
    LateEnd(c, s.(bank := held), rq, w, [GasCharged, EscrowHeld]);
    HoldingMoves(c, s, rq, w, rq.payer);
    HoldingMoves(c, s, rq, w, account);
    HoldsAfterGas(c, s, rq, w);
    GasComesBack(c, s, rq, held);
    ChargePayer(c, s, rq);
    RefundGasMoves(held, Op(rq), rq.payer);
    RefundGasMoves(held, Op(rq), account);
    var refunded := OrElse(RefundGas(held, Op(rq)), held);
    RefundsOnlyThisEscrow(refunded, c.burnRate, Op(rq), id, w.refundOrder, w.refundAccounts);
    TryRefundMoves(refunded, c.burnRate, Op(rq), id, account, rq.payer);
  }

  lemma {:induction false} ChargePayer(c: Config, s: State, rq: Request)
    requires RecordsMatch(s.bank) && AfterGas(c, s, rq).Some?
    ensures Op(rq) in AfterGas(c, s, rq).value.charges && AfterGas(c, s, rq).value.charges[Op(rq)].payer == rq.payer
  {
    hide AfterGas;
    GasMoves(c, s, rq, rq.payer);
  }

  lemma {:induction false} UndoRecords(c: Config, s: State, rq: Request, w: Answers)
    requires RecordsMatch(s.bank)
    ensures RecordsMatch(RefundOperation(c, s, rq, w).bank)
  {
    hide Sum, RefundEscrows, Gains, Losses;
    var b := OrElse(RefundGas(s.bank, Op(rq)), s.bank);
    assert RecordsMatch(b);
    hide RefundGas;
    RefundEscrowsSettle(b, c.burnRate, Op(rq), w.refundOrder, w.refundAccounts);
    RefundLoopCosts(b, c.burnRate, Op(rq), w.refundOrder, w.refundAccounts, 0);
  }

  lemma {:induction false} ChargeRecords(c: Config, s: State, rq: Request)
    requires RecordsMatch(s.bank)
    ensures AfterGas(c, s, rq).Some? ==> RecordsMatch(AfterGas(c, s, rq).value)
  {
    hide GasFee, Split, RoundedShare;
  }

  lemma {:induction false} HoldRecords(b: Bank, bps: BasisPoints, id: EscrowId, amount: nat, account: UserId)
    requires RecordsMatch(b)
    ensures CreateEscrow(b, bps, id, amount, account).Some? ==> RecordsMatch(CreateEscrow(b, bps, id, amount, account).value)
  {
    hide Burn;
  }

  lemma {:induction false} HoldingRecords(c: Config, s: State, rq: Request, w: Answers)
    requires RecordsMatch(s.bank)
    ensures AfterGas(c, s, rq).Some? ==> RecordsMatch(AfterGas(c, s, rq).value)
    ensures AfterHolding(c, s, rq, w).Some? ==> RecordsMatch(AfterHolding(c, s, rq, w).value)
  {
    hide AfterGas, CreateEscrow, RecordsMatch;
    ChargeRecords(c, s, rq);
    if AfterGas(c, s, rq).Some? {
      HoldRecords(AfterGas(c, s, rq).value, c.burnRate, EscrowOf(rq), c.messageFee, w.holdAccount);
    }
  }

  lemma PaymentRecords(c: Config, b: Bank, rq: Request)
    requires RecordsMatch(b)
    ensures AfterPaying(c, b, rq).Some? ==> RecordsMatch(AfterPaying(c, b, rq).value)
  {
    hide StorageFee;
  }

  lemma ReleaseRecords(b: Bank, bps: BasisPoints, id: EscrowId, account: UserId)
    requires RecordsMatch(b)
    ensures ReleaseEscrow(b, bps, id, account).Some? ==> RecordsMatch(ReleaseEscrow(b, bps, id, account).value)
  {
    hide Burn;
  }

  lemma CommitRecords(b: Bank, op: OpId)
    requires RecordsMatch(b)
    ensures RecordsMatch(OrElse(MarkCommitted(b, op), b))
  {
  }

  lemma {:induction false} CompletionRecords(c: Config, s: State, rq: Request, w: Answers, trace: seq<Effect>)
    requires RecordsMatch(s.bank)
    ensures RecordsMatch(AfterHold(c, s, rq, w, trace).state.bank)
  {
    LateEnd(c, s, rq, w, trace);
    OutcomesAfterHold(c, s, rq, w, trace);
    hide AfterHold, AfterPaying, RefundOperation, ReleaseEscrow, MarkCommitted, RecordsMatch;
    UndoRecords(c, s, rq, w);
    PaymentRecords(c, s.bank, rq);
    if AfterPaying(c, s.bank, rq).Some? {
      var released := ReleaseEscrow(AfterPaying(c, s.bank, rq).value, c.burnRate, EscrowOf(rq), w.releaseAccount);
      ReleaseRecords(AfterPaying(c, s.bank, rq).value, c.burnRate, EscrowOf(rq), w.releaseAccount);
      if released.Some? {
        CommitRecords(released.value, Op(rq));
      }
    }
  }

  lemma OutcomesAfterHold(c: Config, s: State, rq: Request, w: Answers, trace: seq<Effect>)
    ensures AfterHold(c, s, rq, w, trace).outcome in
      {SubmitFailed, FinalityFailed, StoragePaymentFailed, ReleaseFailed, CommitFailed, Delivered}
  {
    hide StorageFee, RefundOperation, ReleaseEscrow, MarkCommitted, PayPools;
  }

  /** Every send keeps the records under their own ids. */
  lemma {:induction false} SendKeepsRecords(c: Config, s: State, rq: Request, w: Answers)
    requires RecordsMatch(s.bank)
    ensures RecordsMatch(Send(c, s, rq, w).state.bank)
  {
    hide Send, AfterGas, AfterHolding, AfterHold, RecordsMatch;
    EarlyEnd(c, s, rq, w);
    HoldingRecords(c, s, rq, w);
    if AfterHolding(c, s, rq, w).Some? {
      CompletionRecords(c, s.(bank := AfterHolding(c, s, rq, w).value), rq, w, [GasCharged, EscrowHeld]);
    }
    if AfterGas(c, s, rq).Some? {
      GasRefundRecords(AfterGas(c, s, rq).value, Op(rq));
    }
  }

  lemma GasRefundRecords(b: Bank, op: OpId)
    requires RecordsMatch(b)
    ensures RecordsMatch(OrElse(RefundGas(b, op), b))
  {
  }

  // ---------- 64 bits suffice ----------

  /**
   If all tokens together fit 64 bits then so does every wallet and pool after any run: no checked
   addition of the currency chain fails and no unchecked one wraps.
   */
  lemma {:induction false} FundsFit(c: Config, s: State, attempts: seq<Attempt>, u: UserId)
    requires Covered(s.bank) && StoredArePaid(s) && Supply(s.bank) <= U64_MAX
    ensures var b := SendAll(c, s, attempts).bank;
            Balance(b, u) <= U64_MAX && b.pools.Total() <= U64_MAX && b.burned <= U64_MAX
  {
    hide SendAll, Covered, StoredArePaid, Sum;
    RunsAreSound(c, s, attempts);
    var b := SendAll(c, s, attempts).bank;
    if u in b.wallets {
      SumBoundsEach(b.wallets, u);
    }
  }

  /** What an admitted operation of a wallet with a 64-bit balance may turn out not to cover. */
  ghost predicate Shortfall(c: Config, s: State, rq: Request, w: Answers) {
    && Admitted(c, s, rq) && rq.payer in s.bank.wallets && Balance(s.bank, rq.payer) <= U64_MAX
    && !PayerCovers(c, s, rq, w)
  }

  /** The balance check ensures that every step is covered if and only if the sum of the fees fits 64 bits. */
  lemma {:induction false} CheckSufficesIff(c: Config, rq: Request)
    requires rq.kind == Direct ==> rq.contentLen <= MAX_MESSAGE_SIZE
    ensures !(exists s: State, w: Answers :: Shortfall(c, s, rq, w))
       <==> GasFee(c, rq) + c.messageFee + StorageFee(c, rq.contentLen) <= U64_MAX
  {
    hide GasFee, StorageFee, Burn;
    if GasFee(c, rq) + c.messageFee + StorageFee(c, rq.contentLen) <= U64_MAX {
      forall s: State, w: Answers
        ensures !Shortfall(c, s, rq, w)
      {
        if Admitted(c, s, rq) && rq.payer in s.bank.wallets {
          AdmittedCovers(c, s, rq, w);
        }
      }
    } else {
      var s := State(Bank(map[rq.payer := U64_MAX], Amounts(0, 0, 0, 0, 0), 0, map[], map[]), map[], []);
      assert Shortfall(c, s, rq, FriendlyAnswers(rq.payer + 1));
    }
  }

  // ---------- every operation is delivered at most once ----------

  lemma {:induction false} RefundsReleaseNothing(b: Bank, bps: BasisPoints, op: OpId, order: seq<EscrowId>,
                                                 accounts: EscrowId -> UserId, id: EscrowId)
    ensures Released?(RefundEscrows(b, bps, op, order, accounts), id) ==> Released?(b, id)
  {
    hide TryRefund;
    if order != [] {
      var n := |order| - 1;
      RefundsReleaseNothing(b, bps, op, order[..n], accounts, id);
      TryRefundMoves(RefundEscrows(b, bps, op, order[..n], accounts), bps, op, order[n], accounts(order[n]), 0);
    }
  }

  predicate Released?(b: Bank, id: EscrowId) {
    id in b.escrows && b.escrows[id].status == Released
  }

  lemma {:induction false} UndoReleasesNothing(c: Config, s: State, rq: Request, w: Answers, id: EscrowId)
    ensures Released?(RefundOperation(c, s, rq, w).bank, id) ==> Released?(s.bank, id)
  {
    hide RefundGas, RefundEscrows;
    RefundGasMoves(s.bank, Op(rq), 0);
    var b := OrElse(RefundGas(s.bank, Op(rq)), s.bank);
    RefundsReleaseNothing(b, c.burnRate, Op(rq), w.refundOrder, w.refundAccounts, id);
  }

  lemma {:induction false} CompletionReleases(c: Config, s: State, rq: Request, w: Answers, trace: seq<Effect>, id: EscrowId)
    ensures var r := AfterHold(c, s, rq, w, trace);
            Released?(r.state.bank, id) ==> Released?(s.bank, id) || (id == EscrowOf(rq) && r.outcome in {Delivered, CommitFailed})
  {
    LateEnd(c, s, rq, w, trace);
    OutcomesAfterHold(c, s, rq, w, trace);
    UndoReleasesNothing(c, s, rq, w, id);
    hide AfterHold, RefundOperation, ReleaseEscrow, PayPools, MarkCommitted;
    if AfterPaying(c, s.bank, rq).Some? {
      var paid := AfterPaying(c, s.bank, rq).value;
      PayMoves(s.bank, rq.payer, StorageFee(c, rq.contentLen), StorageSinks(StorageFee(c, rq.contentLen)), 0);
      if ReleaseEscrow(paid, c.burnRate, EscrowOf(rq), w.releaseAccount).Some? {
        ReleaseNeedsHeld(paid, c.burnRate, EscrowOf(rq), w.releaseAccount);
        CommitKeepsEscrows(ReleaseEscrow(paid, c.burnRate, EscrowOf(rq), w.releaseAccount).value, Op(rq));
      }
    }
  }

  /** An escrow becomes released only by the delivery of its own operation through its own relay. */
  lemma {:induction false} ReleasedOnlyByDelivery(c: Config, s: State, rq: Request, w: Answers, id: EscrowId)
    ensures var r := Send(c, s, rq, w);
            Released?(r.state.bank, id) ==> Released?(s.bank, id) || (id == EscrowOf(rq) && r.outcome == Delivered)
  {
    hide Send, AfterGas, AfterHolding, AfterHold, RefundGas, Balance, GasDue, HoldDue, HoldCredit;
    EarlyEnd(c, s, rq, w);
    GasMoves(c, s, rq, 0);
    HoldingMoves(c, s, rq, w, 0);
    CommitNeverFails(c, s, rq, w);
    if AfterGas(c, s, rq).Some? {
      RefundGasMoves(AfterGas(c, s, rq).value, Op(rq), 0);
    }
    if AfterHolding(c, s, rq, w).Some? {
      CompletionReleases(c, s.(bank := AfterHolding(c, s, rq, w).value), rq, w, [GasCharged, EscrowHeld], id);
    }
  }

  predicate Succeeded(s: State, op: OpId) {
    op in s.mappings && s.mappings[op] == Success
  }

  /** Success is recorded by delivery alone and never taken back. */
  lemma {:induction false} SuccessIsDelivery(c: Config, s: State, rq: Request, w: Answers, op: OpId)
    ensures var r := Send(c, s, rq, w);
            Succeeded(r.state, op) <==> Succeeded(s, op) || (op == Op(rq) && r.outcome == Delivered)
  {
    hide GasFee, StorageFee, RefundGas, RefundEscrows, ChargeGas, CreateEscrow, ReleaseEscrow, PayPools, MarkCommitted;
  }

  /** Released escrows belong to operations that succeeded, at most one to each. */
  ghost predicate ReleasedOnce(s: State) {
    && (forall id | Released?(s.bank, id) :: Succeeded(s, id.0))
    && forall i, j | Released?(s.bank, i) && Released?(s.bank, j) && i.0 == j.0 :: i == j
  }

  /** Stored content belongs to operations that succeeded, and is stored once. */
  ghost predicate StoredOnce(s: State) {
    && (forall op | op in s.stored :: Succeeded(s, op))
    && forall i, j | 0 <= i < j < |s.stored| :: s.stored[i] != s.stored[j]
  }

  /** What a send does to successes, in every state. */
  ghost predicate SuccessOnlyBy(s: State, s': State, op: OpId, delivered: bool) {
    && (delivered ==> !Succeeded(s, op))
    && forall o: OpId :: Succeeded(s', o) <==> Succeeded(s, o) || (o == op && delivered)
  }

  lemma {:induction false} SendSucceedsOnce(c: Config, s: State, rq: Request, w: Answers)
    ensures var r := Send(c, s, rq, w); SuccessOnlyBy(s, r.state, Op(rq), r.outcome == Delivered)
  {
    hide Send, PayerCovers, ReleaseCovers, EscrowOpen, Balance, Required;
    DeliveredIff(c, s, rq, w);
    forall o: OpId
      ensures Succeeded(Send(c, s, rq, w).state, o) <==> Succeeded(s, o) || (o == Op(rq) && Send(c, s, rq, w).outcome == Delivered)
    {
      SuccessIsDelivery(c, s, rq, w, o);
    }
  }

  lemma {:induction false} SendKeepsReleasedOnce(c: Config, s: State, rq: Request, w: Answers)
    requires ReleasedOnce(s)
    ensures ReleasedOnce(Send(c, s, rq, w).state)
  {
    hide Send, Released?, Succeeded;
    SendSucceedsOnce(c, s, rq, w);
    var r := Send(c, s, rq, w);
    forall id | Released?(r.state.bank, id)
      ensures Released?(s.bank, id) || (id == EscrowOf(rq) && r.outcome == Delivered)
    {
      ReleasedOnlyByDelivery(c, s, rq, w, id);
    }
  }

  lemma {:induction false} SendKeepsStoredOnce(c: Config, s: State, rq: Request, w: Answers)
    requires StoredOnce(s)
    ensures StoredOnce(Send(c, s, rq, w).state)
  {
    hide Send, FullTrace, Succeeded;
    SendSucceedsOnce(c, s, rq, w);
    StoredOnlyAfterEverything(c, s, rq, w);
    CommitNeverFails(c, s, rq, w);
  }

  /** Over any sequence of sends at most one escrow per operation is released, and each operation is stored at most once. */
  lemma {:induction false} DeliveredAtMostOnce(c: Config, s: State, attempts: seq<Attempt>)
    requires ReleasedOnce(s) && StoredOnce(s)
    ensures ReleasedOnce(SendAll(c, s, attempts)) && StoredOnce(SendAll(c, s, attempts))
  {
    hide Send, ReleasedOnce, StoredOnce;
    if attempts != [] {
      var n := |attempts| - 1;
      DeliveredAtMostOnce(c, s, attempts[..n]);
      var before := SendAll(c, s, attempts[..n]);
      SendKeepsReleasedOnce(c, before, attempts[n].request, attempts[n].answers);
      SendKeepsStoredOnce(c, before, attempts[n].request, attempts[n].answers);
    }
  }

  // ---------- every outcome, exactly ----------

  /** The checks before anything is charged. */
  predicate SizeAllowed(rq: Request) {
    rq.kind == Direct ==> rq.contentLen <= 10485760
  }

  predicate CanHold(c: Config, s: State, rq: Request) {
    && Balance(s.bank, rq.payer) >= GasDue(c, s, rq) + HoldDue(c, s, rq)
    && (NewEscrow(s, rq) ==> rq.payer in s.bank.wallets)
  }

  /** Each outcome has its condition, in terms of the state before the call and the answers during it. */
  ghost predicate OutcomeFor(c: Config, s: State, rq: Request, w: Answers, outcome: Outcome) {
    if !SizeAllowed(rq) then outcome == TooLarge
    else if Succeeded(s, Op(rq)) then outcome == AlreadyDone
    else if Balance(s.bank, rq.payer) < Required(c, rq) then outcome == InsufficientBalance
    else if Balance(s.bank, rq.payer) < GasDue(c, s, rq) then outcome == GasFailed
    else if !CanHold(c, s, rq) then outcome == EscrowFailed
    else if !w.submitted then outcome == SubmitFailed
    else if w.finality != Reached then outcome == FinalityFailed
    else if Balance(s.bank, rq.payer) < HeldCost(c, s, rq, w) + StorageFee(c, rq.contentLen) then outcome == StoragePaymentFailed
    else if !(EscrowOpen(s, rq) && ReleaseCovers(c, s, rq, w)) then outcome == ReleaseFailed
    else outcome == Delivered
  }

  lemma {:induction false} StartIs(c: Config, s: State, rq: Request, w: Answers)
    ensures var r := Send(c, s, rq, w);
            if !SizeAllowed(rq) then r.outcome == TooLarge
            else if Succeeded(s, Op(rq)) then r.outcome == AlreadyDone
            else if Balance(s.bank, rq.payer) < Required(c, rq) then r.outcome == InsufficientBalance
            else if AfterGas(c, s, rq).None? then r.outcome == GasFailed
            else if AfterHolding(c, s, rq, w).None? then r.outcome == EscrowFailed
            else r == AfterHold(c, s.(bank := AfterHolding(c, s, rq, w).value), rq, w, [GasCharged, EscrowHeld])
  {
    hide GasFee, StorageFee, RefundGas, ChargeGas, CreateEscrow, AfterHold, Balance, Required;
  }

  lemma {:induction false} EndIs(c: Config, s: State, rq: Request, w: Answers, trace: seq<Effect>)
    requires Standing(s.bank, Op(rq))
    ensures var r := AfterHold(c, s, rq, w, trace);
            if !w.submitted then r.outcome == SubmitFailed
            else if w.finality != Reached then r.outcome == FinalityFailed
            else if AfterPaying(c, s.bank, rq).None? then r.outcome == StoragePaymentFailed
            else if ReleaseEscrow(AfterPaying(c, s.bank, rq).value, c.burnRate, EscrowOf(rq), w.releaseAccount).None? then
              r.outcome == ReleaseFailed
            else r.outcome == Delivered
  {
    hide StorageFee, RefundOperation, ReleaseEscrow;
    if AfterPaying(c, s.bank, rq).Some? {
      ReleasesIff(AfterPaying(c, s.bank, rq).value, c.burnRate, EscrowOf(rq), w.releaseAccount);
    }
  }

  /** The outcome of every send, in every state and for all answers. */
  lemma {:induction false} OutcomeIs(c: Config, s: State, rq: Request, w: Answers)
    ensures OutcomeFor(c, s, rq, w, Send(c, s, rq, w).outcome)
  {
    hide Send, AfterGas, AfterHolding, AfterHold, AfterPaying, EscrowOpen, ReleaseCovers, ReleaseEscrow, Balance, Required,
         GasDue, HoldDue, HoldCredit, HeldCost, StorageFee, NewEscrow, SizeAllowed, Succeeded;
    StartIs(c, s, rq, w);
    GasMoves(c, s, rq, rq.payer);
    HoldingMoves(c, s, rq, w, rq.payer);
    if AfterHolding(c, s, rq, w).Some? {
      var held := AfterHolding(c, s, rq, w).value;
      EndIs(c, s.(bank := held), rq, w, [GasCharged, EscrowHeld]);
      ReleaseCoversIff(c, s, rq, w, held);
    }
  }

  /** What becomes of the record of an operation, and that no other record changes. */
  ghost predicate MarkedBy(m: map<OpId, OperationStatus>, m': map<OpId, OperationStatus>, op: OpId, delivered: bool, refunding: bool) {
    && m'.Keys == m.Keys + (if delivered then {op} else {})
    && (forall o | o in m && o != op :: m'[o] == m[o])
    && (delivered ==> m'[op] == Success)
    && (!delivered && op in m ==> m'[op] == if refunding then FailedRefunded else m[op])
  }

  lemma {:induction false} EndMarks(c: Config, s: State, rq: Request, w: Answers, trace: seq<Effect>)
    ensures var r := AfterHold(c, s, rq, w, trace);
            MarkedBy(s.mappings, r.state.mappings, Op(rq), r.outcome == Delivered, Refunding(rq, w, r.outcome))
  {
    hide StorageFee, RefundGas, RefundEscrows, ReleaseEscrow, PayPools, MarkCommitted;
  }

  /** A refunded failure marks an operation that had been recorded, delivery records success, and all other records stay. */
  lemma {:induction false} FailureIsMarked(c: Config, s: State, rq: Request, w: Answers)
    ensures var r := Send(c, s, rq, w);
            MarkedBy(s.mappings, r.state.mappings, Op(rq), r.outcome == Delivered, Refunding(rq, w, r.outcome))
  {
    hide GasFee, StorageFee, RefundGas, ChargeGas, CreateEscrow, AfterHold, Balance, Required;
    StartIs(c, s, rq, w);
    if AfterHolding(c, s, rq, w).Some? {
      EndMarks(c, s.(bank := AfterHolding(c, s, rq, w).value), rq, w, [GasCharged, EscrowHeld]);
    }
  }

  /** A delivered operation's charge is committed, so that no refund takes it back any more. */
  lemma {:induction false} DeliveredIsCommitted(c: Config, s: State, rq: Request, w: Answers)
    requires Send(c, s, rq, w).outcome == Delivered
    ensures var b := Send(c, s, rq, w).state.bank;
            Op(rq) in b.charges && b.charges[Op(rq)].status == Committed && RefundGas(b, Op(rq)).None?
  {
    hide Send, AfterHolding, AfterHold, Balance, GasDue, HoldDue, HoldCredit, StorageFee, PayPools, ReleaseEscrow;
    EarlyEnd(c, s, rq, w);
    var held := AfterHolding(c, s, rq, w).value;
    LateEnd(c, s.(bank := held), rq, w, [GasCharged, EscrowHeld]);
    HoldingMoves(c, s, rq, w, rq.payer);
    var fee := StorageFee(c, rq.contentLen);
    PayMoves(held, rq.payer, fee, StorageSinks(fee), rq.payer);
    ReleasesIff(AfterPaying(c, held, rq).value, c.burnRate, EscrowOf(rq), w.releaseAccount);
  }

  lemma PlusPlus(a: Amounts, b: Amounts, c: Amounts)
    ensures a.Plus(b).Plus(c) == a.Plus(b.Plus(c)) && b.Plus(c).Total() == b.Total() + c.Total()
  {
  }

  /** What the gas due pays into each pool. */
  function GasShares(c: Config, s: State, rq: Request): (a: Amounts)
    ensures RoundedShare(a.validator, c.shares.validator, GasDue(c, s, rq)) && RoundedShare(a.relay, c.shares.relay, GasDue(c, s, rq))
    ensures RoundedShare(a.insurance, c.shares.insurance, GasDue(c, s, rq)) && a.storage == 0 && a.Total() == GasDue(c, s, rq)
  {
    if Standing(s.bank, Op(rq)) then Amounts(0, 0, 0, 0, 0) else Split(c.shares, GasFee(c, rq))
  }

  lemma {:induction false} ChargePools(shares: Shares, b: Bank, payer: UserId, amount: nat, op: OpId)
    requires ChargeGas(shares, b, payer, amount, op).Some?
    ensures ChargeGas(shares, b, payer, amount, op).value.pools
         == b.pools.Plus(if Standing(b, op) then Amounts(0, 0, 0, 0, 0) else Split(shares, amount))
  {
    hide Split, RoundedShare, PayPools, Amounts.Plus, Amounts.Total;
    NothingToShare(shares);
    PaidIn(b, payer, amount, Split(shares, amount));
  }

  lemma PaidIn(b: Bank, payer: UserId, amount: nat, sinks: Amounts)
    ensures b.pools.Plus(Amounts(0, 0, 0, 0, 0)) == b.pools
    ensures PayPools(b, payer, amount, sinks).Some? && (amount == 0 ==> sinks == Amounts(0, 0, 0, 0, 0)) ==>
      PayPools(b, payer, amount, sinks).value.pools == b.pools.Plus(sinks)
  {
  }

  lemma NothingToShare(shares: Shares)
    ensures Split(shares, 0) == Amounts(0, 0, 0, 0, 0)
  {
  }

  lemma HoldPools(b: Bank, bps: BasisPoints, id: EscrowId, amount: nat, account: UserId)
    ensures CreateEscrow(b, bps, id, amount, account).Some? ==> CreateEscrow(b, bps, id, amount, account).value.pools == b.pools
  {
    hide Burn;
  }

  lemma PayingPools(c: Config, b: Bank, rq: Request)
    ensures AfterPaying(c, b, rq).Some? ==> AfterPaying(c, b, rq).value.pools == b.pools.Plus(StorageSinks(StorageFee(c, rq.contentLen)))
  {
    hide StorageFee;
  }

  lemma SettlePools(b: Bank, bps: BasisPoints, id: EscrowId, account: UserId, op: OpId)
    ensures ReleaseEscrow(b, bps, id, account).Some? ==>
      var released := ReleaseEscrow(b, bps, id, account).value;
      released.pools == b.pools && OrElse(MarkCommitted(released, op), released).pools == b.pools
  {
    hide Burn;
  }

  lemma {:induction false} PoolsBeforeRelease(c: Config, s: State, rq: Request, w: Answers)
    requires AfterHolding(c, s, rq, w).Some? && AfterPaying(c, AfterHolding(c, s, rq, w).value, rq).Some?
    ensures AfterPaying(c, AfterHolding(c, s, rq, w).value, rq).value.pools
         == s.bank.pools.Plus(GasShares(c, s, rq).Plus(StorageSinks(StorageFee(c, rq.contentLen))))
  {
    var shares, sinks := GasShares(c, s, rq), StorageSinks(StorageFee(c, rq.contentLen));
    PlusPlus(s.bank.pools, shares, sinks);
    hide AfterPaying, CreateEscrow, StorageFee, ChargeGas, Split, RoundedShare, GasFee, Amounts.Plus, Amounts.Total, StorageSinks;
    var charged, held := AfterGas(c, s, rq).value, AfterHolding(c, s, rq, w).value;
    ChargePools(c.shares, s.bank, rq.payer, GasFee(c, rq), Op(rq));
    HoldPools(charged, c.burnRate, EscrowOf(rq), c.messageFee, w.holdAccount);
    PayingPools(c, held, rq);
  }

  lemma GainIs(c: Config, s: State, rq: Request)
    ensures var shares, fee := GasShares(c, s, rq), StorageFee(c, rq.contentLen);
            var gain := shares.Plus(StorageSinks(fee));
            && gain.validator == shares.validator && gain.relay == shares.relay && gain.insurance == shares.insurance
            && gain.storage == shares.storage + fee && gain.Total() == shares.Total() + fee
  {
    hide GasShares, StorageFee;
  }

  /** What a run has paid in goes to the pools it is meant for: shared gas, and storage fees to the storage bonds. */
  lemma {:induction false} PoolsGain(c: Config, s: State, rq: Request, w: Answers) returns (gain: Amounts)
    requires Send(c, s, rq, w).outcome in {ReleaseFailed, Delivered}
    ensures Send(c, s, rq, w).state.bank.pools == s.bank.pools.Plus(gain)
    ensures var gas := GasDue(c, s, rq);
            && RoundedShare(gain.validator, c.shares.validator, gas) && RoundedShare(gain.relay, c.shares.relay, gas)
            && RoundedShare(gain.insurance, c.shares.insurance, gas) && gain.storage == StorageFee(c, rq.contentLen)
            && gain.Total() == gas + StorageFee(c, rq.contentLen)
  {
    gain := GasShares(c, s, rq).Plus(StorageSinks(StorageFee(c, rq.contentLen)));
    GainIs(c, s, rq);
    hide Send, AfterHolding, AfterHold, AfterPaying, StorageFee, ReleaseEscrow, MarkCommitted, RoundedShare, GasDue, GasShares,
         Amounts.Plus, Amounts.Total, StorageSinks;
    EarlyEnd(c, s, rq, w);
    var held := AfterHolding(c, s, rq, w).value;
    LateEnd(c, s.(bank := held), rq, w, [GasCharged, EscrowHeld]);
    PoolsBeforeRelease(c, s, rq, w);
    SettlePools(AfterPaying(c, held, rq).value, c.burnRate, EscrowOf(rq), w.releaseAccount, Op(rq));
  }
}
