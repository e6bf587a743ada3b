/**
 Fees on the currency chain (`fee_orchestrator.rs`, `currency_chain.rs`): idempotent charges that
 are split over protocol pools, and escrows that are held, released or refunded by transfers.

 The protocol's escrow account is `UserId::default()`, which draws a new random id at every
 call; each operation therefore takes the account it happens to draw as an argument.
 */
module FeeOrchestrator {
  import opened Bytes
  import opened MapSums

  type UserId = nat

  datatype Kind = Direct | Channel

  /** `compute_operation_id` hashes exactly these; the relay is not among them. */
  datatype OpId = OpId(payer: UserId, kind: Kind, payload: nat, nonce: nat)

  /** `compute_escrow_id` hashes exactly these three: operation, payer and relay. */
  type EscrowId = (OpId, UserId, UserId)

  type BasisPoints = x: nat | x <= 10000

  datatype PoolType = ValidatorRewards | RelayRewards | Treasury | InsuranceFund | StorageBonds

  datatype Amounts = Amounts(validator: nat, relay: nat, treasury: nat, insurance: nat, storage: nat) {
    function Total(): nat { validator + relay + treasury + insurance + storage }

    function Plus(a: Amounts): Amounts {
      Amounts(validator + a.validator, relay + a.relay, treasury + a.treasury, insurance + a.insurance, storage + a.storage)
    }

    /** Pool by pool, not below zero. */
    function SaturatingMinus(a: Amounts): Amounts {
      Amounts(Monus(validator, a.validator), Monus(relay, a.relay), Monus(treasury, a.treasury),
              Monus(insurance, a.insurance), Monus(storage, a.storage))
    }

    function Of(pool: PoolType): nat {
      match pool
      case ValidatorRewards => validator
      case RelayRewards => relay
      case Treasury => treasury
      case InsuranceFund => insurance
      case StorageBonds => storage
    }
  }

  function Monus(x: nat, y: nat): nat {
    if x >= y then x - y else 0
  }

  datatype ChargeStatus = Charged | Committed | Refunded

  datatype Charge = Charge(payer: UserId, amount: nat, sinks: Amounts, status: ChargeStatus)

  datatype EscrowStatus = Held | Released | Returned

  datatype Escrow = Escrow(payer: UserId, recipient: UserId, amount: nat, status: EscrowStatus)

  datatype Bank = Bank(
    wallets: map<UserId, nat>,
    pools: Amounts,
    burned: nat,
    charges: map<OpId, Charge>,
    escrows: map<EscrowId, Escrow>)

  function Balance(b: Bank, user: UserId): nat {
    Lookup(b.wallets, user)
  }

  /** The part of a transfer that is burned; the product is taken in 64 bits and may wrap. */
  function Burn(bps: BasisPoints, amount: nat): (r: nat)
    ensures r <= amount
  {
    BurnAtMost(bps, amount);
    amount * bps % U64_MODULUS / 10000
  }

  lemma BurnAtMost(bps: BasisPoints, amount: nat)
    ensures amount * bps % U64_MODULUS / 10000 <= amount
  {
    assert amount * bps <= amount * 10000;
    WrappedAtMost(amount * bps);
  }

  lemma WrappedAtMost(x: nat)
    ensures x % U64_MODULUS <= x
    ensures x <= U64_MAX ==> x % U64_MODULUS == x
  {
  }

  /** The burn is the full share unless the product wraps, and nothing is burned below one token. */
  lemma {:induction false} NoBurnIff(bps: BasisPoints, amount: nat)
    ensures Burn(bps, amount) == 0 <==> amount * bps % U64_MODULUS < 10000
    ensures amount * bps <= U64_MAX ==> RoundedShare(Burn(bps, amount), bps, amount)
  {
    WrappedAtMost(amount * bps);
  }

  /** The share is the given part of the amount, in basis points, rounded down. */
  predicate RoundedShare(share: nat, bps: BasisPoints, amount: nat) {
    share * 10000 <= amount * bps < share * 10000 + 10000
  }

  /** How protocol fees are shared out, in basis points; the treasury takes what is left. */
  datatype ShareConfig = ShareConfig(validator: BasisPoints, relay: BasisPoints, insurance: BasisPoints) {
    predicate Whole() { validator + relay + insurance <= 10000 }
  }

  const DEFAULT_SHARES: ShareConfig := ShareConfig(6800, 2000, 200)

  /** The documentation asks for shares that make up the whole; nothing checks it. */
  type Shares = c: ShareConfig | c.Whole() witness DEFAULT_SHARES

  function Portion(bps: BasisPoints, amount: nat): (r: nat)
    ensures RoundedShare(r, bps, amount)
  {
    amount * bps / 10000
  }

  function Split(shares: ShareConfig, amount: nat): (a: Amounts)
    ensures RoundedShare(a.validator, shares.validator, amount) && RoundedShare(a.relay, shares.relay, amount)
    ensures RoundedShare(a.insurance, shares.insurance, amount) && a.storage == 0
    ensures shares.Whole() ==> a.Total() == amount
  {
    var validator, relay, insurance :=
      Portion(shares.validator, amount), Portion(shares.relay, amount), Portion(shares.insurance, amount);
    PortionsFit(shares, amount);
    Amounts(validator, relay, Monus(Monus(Monus(amount, validator), relay), insurance), insurance, 0)
  }

  lemma PortionsFit(shares: ShareConfig, amount: nat)
    ensures shares.Whole() ==>
      Portion(shares.validator, amount) + Portion(shares.relay, amount) + Portion(shares.insurance, amount) <= amount
  {
    if shares.Whole() {
      assert amount * shares.validator + amount * shares.relay + amount * shares.insurance
          == amount * (shares.validator + shares.relay + shares.insurance) <= amount * 10000;
    }
  }

  /** No fee loses or gains a token by being shared out if and only if the shares make up at most the whole. */
  lemma {:induction false} SplitConservesIff(shares: ShareConfig)
    ensures (forall amount: nat :: Split(shares, amount).Total() == amount) <==> shares.Whole()
  {
    if !shares.Whole() {
      assert Split(shares, 10000).Total() == shares.validator + shares.relay + shares.insurance;
    }
  }

  // ---------- wallet operations ----------

  /** `transfer`: fails for an unknown or too poor sender, and burns a share on the way. */
  function Transfer(b: Bank, bps: BasisPoints, from: UserId, to: UserId, amount: nat): Option<Bank> {
    if from !in b.wallets || b.wallets[from] < amount then None
    else
      var burn := Burn(bps, amount);
      var debited := b.wallets[from := b.wallets[from] - amount];
      Some(b.(wallets := debited[to := Lookup(debited, to) + (amount - burn)], burned := b.burned + burn))
  }

  /** `debit_for_protocol_fee` followed by `fund_pool`. */
  function PayPools(b: Bank, payer: UserId, amount: nat, sinks: Amounts): Option<Bank> {
    if amount == 0 then Some(b)
    else if Balance(b, payer) < amount then None
    else Some(b.(wallets := b.wallets[payer := Balance(b, payer) - amount], pools := b.pools.Plus(sinks)))
  }

  // ---------- charges ----------

  predicate Charged?(b: Bank, op: OpId) {
    op in b.charges && b.charges[op].status == Charged
  }

  /** `charge_fee`: a charge that stands is not repeated. */
  function ChargeGas(shares: ShareConfig, b: Bank, payer: UserId, amount: nat, op: OpId): Option<Bank> {
    if op in b.charges && b.charges[op].status != Refunded then Some(b)
    else
      match PayPools(b, payer, amount, Split(shares, amount))
      case None => None
      case Some(paid) => Some(paid.(charges := paid.charges[op := Charge(payer, amount, Split(shares, amount), Charged)]))
  }

  /** `refund_fee`: only a charge that is not committed can be undone, and only once. */
  function RefundGas(b: Bank, op: OpId): Option<Bank> {
    if op !in b.charges || b.charges[op].status == Committed then None
    else if b.charges[op].status == Refunded then Some(b)
    else
      var charge := b.charges[op];
      Some(b.(
        wallets := if charge.amount == 0 then b.wallets
                   else b.wallets[charge.payer := Balance(b, charge.payer) + charge.amount],
        pools := b.pools.SaturatingMinus(charge.sinks),
        charges := b.charges[op := charge.(status := Refunded)]))
  }

  /** `mark_committed`. */
  function MarkCommitted(b: Bank, op: OpId): Option<Bank> {
    if op !in b.charges || b.charges[op].status == Refunded then None
    else Some(b.(charges := b.charges[op := b.charges[op].(status := Committed)]))
  }

  // ---------- escrows ----------

  /** `create_escrow`: an existing record is returned as it is, whatever its status. */
  function CreateEscrow(b: Bank, bps: BasisPoints, id: EscrowId, amount: nat, account: UserId): Option<Bank> {
    if id in b.escrows then Some(b)
    else
      match Transfer(b, bps, id.1, account, amount)
      case None => None
      case Some(t) => Some(t.(escrows := t.escrows[id := Escrow(id.1, id.2, amount, Held)]))
  }

  predicate IsHeld(b: Bank, id: EscrowId) {
    id in b.escrows && b.escrows[id].status == Held
  }

  function Settle(b: Bank, bps: BasisPoints, id: EscrowId, account: UserId, to: UserId, status: EscrowStatus): Option<Bank>
    requires id in b.escrows
  {
    match Transfer(b, bps, account, to, b.escrows[id].amount)
    case None => None
    case Some(t) => Some(t.(escrows := t.escrows[id := b.escrows[id].(status := status)]))
  }

  /** `release_escrow`. */
  function ReleaseEscrow(b: Bank, bps: BasisPoints, id: EscrowId, account: UserId): Option<Bank> {
    if !IsHeld(b, id) then None else Settle(b, bps, id, account, b.escrows[id].recipient, Released)
  }

  /** `refund_escrow`. */
  function RefundEscrow(b: Bank, bps: BasisPoints, id: EscrowId, account: UserId): Option<Bank> {
    if !IsHeld(b, id) then None else Settle(b, bps, id, account, b.escrows[id].payer, Returned)
  }

  /** `refund_escrow_to_payer`: every escrow of the operation is tried, failures are logged only. */
  function RefundEscrows(b: Bank, bps: BasisPoints, op: OpId, order: seq<EscrowId>, accounts: EscrowId -> UserId): Bank {
    if order == [] then b
    else
      var n := |order| - 1;
      TryRefund(RefundEscrows(b, bps, op, order[..n], accounts), bps, op, order[n], accounts(order[n]))
  }

  function TryRefund(b: Bank, bps: BasisPoints, op: OpId, id: EscrowId, account: UserId): Bank {
    if id.0 != op || RefundEscrow(b, bps, id, account).None? then b else RefundEscrow(b, bps, id, account).value
  }

  // ---------- the orchestrator object ----------

  class Orchestrator {
    const burnRate: BasisPoints
    const shares: ShareConfig
    var wallets: map<UserId, nat>
    var pools: Amounts
    var burned: nat
    var charges: map<OpId, Charge>
    var escrows: map<EscrowId, Escrow>

    function View(): Bank
      reads this
    {
      Bank(wallets, pools, burned, charges, escrows)
    }

    constructor (burnRate: BasisPoints, shares: ShareConfig, wallets: map<UserId, nat>, pools: Amounts)
      ensures this.burnRate == burnRate && this.shares == shares && View() == Bank(wallets, pools, 0, map[], map[])
    {
      this.burnRate, this.shares := burnRate, shares;
      this.wallets, this.pools, burned, charges, escrows := wallets, pools, 0, map[], map[];
    }

    method TransferTokens(from: UserId, to: UserId, amount: nat) returns (ok: bool)
      modifies this`wallets, this`burned
      ensures ok == Transfer(old(View()), burnRate, from, to, amount).Some?
      ensures View() == if ok then Transfer(old(View()), burnRate, from, to, amount).value else old(View())
    {
      if from !in wallets || wallets[from] < amount {
        return false;
      }
      var burn := Burn(burnRate, amount);
      wallets := wallets[from := wallets[from] - amount];
      wallets := wallets[to := Lookup(wallets, to) + (amount - burn)];
      burned := burned + burn;
      ok := true;
    }

    method DebitForProtocol(payer: UserId, amount: nat, sinks: Amounts) returns (ok: bool)
      modifies this`wallets, this`pools
      ensures ok == PayPools(old(View()), payer, amount, sinks).Some?
      ensures View() == if ok then PayPools(old(View()), payer, amount, sinks).value else old(View())
    {
      if amount == 0 {
        return true;
      }
      if payer !in wallets || wallets[payer] < amount {
        return false;
      }
      wallets := wallets[payer := wallets[payer] - amount];
      pools := pools.Plus(sinks);
      ok := true;
    }

    method ChargeGasFee(payer: UserId, amount: nat, op: OpId) returns (ok: bool)
      modifies this`wallets, this`pools, this`charges
      ensures ok == ChargeGas(shares, old(View()), payer, amount, op).Some?
      ensures View() == if ok then ChargeGas(shares, old(View()), payer, amount, op).value else old(View())
    {
      hide Split;
      if op in charges && charges[op].status != Refunded {
        return true;
      }
      var sinks := Split(shares, amount);
      ok := DebitForProtocol(payer, amount, sinks);
      if ok {
        charges := charges[op := Charge(payer, amount, sinks, Charged)];
      }
    }

    method RefundFee(op: OpId) returns (ok: bool)
      modifies this`wallets, this`pools, this`charges
      ensures ok == RefundGas(old(View()), op).Some?
      ensures View() == if ok then RefundGas(old(View()), op).value else old(View())
    {
      if op !in charges || charges[op].status == Committed {
        return false;
      }
      if charges[op].status == Refunded {
        return true;
      }
      var charge := charges[op];
      pools := pools.SaturatingMinus(charge.sinks);
      if charge.amount != 0 {
        wallets := wallets[charge.payer := Lookup(wallets, charge.payer) + charge.amount];
      }
      charges := charges[op := charge.(status := Refunded)];
      ok := true;
    }

    method Commit(op: OpId) returns (ok: bool)
      modifies this`charges
      ensures ok == MarkCommitted(old(View()), op).Some?
      ensures View() == if ok then MarkCommitted(old(View()), op).value else old(View())
    {
      if op !in charges || charges[op].status == Refunded {
        return false;
      }
      charges := charges[op := charges[op].(status := Committed)];
      ok := true;
    }

    method Hold(id: EscrowId, amount: nat, account: UserId) returns (ok: bool)
      modifies this`wallets, this`burned, this`escrows
      ensures ok == CreateEscrow(old(View()), burnRate, id, amount, account).Some?
      ensures View() == if ok then CreateEscrow(old(View()), burnRate, id, amount, account).value else old(View())
    {
      if id in escrows {
        return true;
      }
      ok := TransferTokens(id.1, account, amount);
      if ok {
        escrows := escrows[id := Escrow(id.1, id.2, amount, Held)];
      }
    }

    method Release(id: EscrowId, account: UserId) returns (ok: bool)
      modifies this`wallets, this`burned, this`escrows
      ensures ok == ReleaseEscrow(old(View()), burnRate, id, account).Some?
      ensures View() == if ok then ReleaseEscrow(old(View()), burnRate, id, account).value else old(View())
    {
      if id !in escrows || escrows[id].status != Held {
        return false;
      }
      var record := escrows[id];
      ok := TransferTokens(account, record.recipient, record.amount);
      if ok {
        escrows := escrows[id := record.(status := Released)];
      }
    }

    method Refund(id: EscrowId, account: UserId) returns (ok: bool)
      modifies this`wallets, this`burned, this`escrows
      ensures ok == RefundEscrow(old(View()), burnRate, id, account).Some?
      ensures View() == if ok then RefundEscrow(old(View()), burnRate, id, account).value else old(View())
    {
      if id !in escrows || escrows[id].status != Held {
        return false;
      }
      var record := escrows[id];
      ok := TransferTokens(account, record.payer, record.amount);
      if ok {
        escrows := escrows[id := record.(status := Returned)];
      }
    }

    /** The loop of `refund_escrow_to_payer`, in the order the map happens to yield. */
    method RefundAll(op: OpId, order: seq<EscrowId>, accounts: EscrowId -> UserId)
      modifies this`wallets, this`burned, this`escrows
      ensures View() == RefundEscrows(old(View()), burnRate, op, order, accounts)
    {
      hide RefundEscrow;
      for i := 0 to |order|
        invariant View() == RefundEscrows(old(View()), burnRate, op, order[..i], accounts)
      {
        assert order[..i + 1][..i] == order[..i];
        if order[i].0 == op {
          var _ := Refund(order[i], accounts(order[i]));
        }
      }
      assert order[..|order|] == order;
    }
  }

  // ---------- no token is created or lost ----------

  ghost function Supply(b: Bank): nat {
    Sum(b.wallets) + b.pools.Total() + b.burned
  }

  lemma {:induction false} TransferConserves(b: Bank, bps: BasisPoints, from: UserId, to: UserId, amount: nat)
    requires Transfer(b, bps, from, to, amount).Some?
    ensures Supply(Transfer(b, bps, from, to, amount).value) == Supply(b)
  {
    hide Sum, Burn;
    SumUpdate(b.wallets, from, b.wallets[from] - amount);
    var debited := b.wallets[from := b.wallets[from] - amount];
    SumUpdate(debited, to, Lookup(debited, to) + (amount - Burn(bps, amount)));
  }

  lemma {:induction false} PayPoolsConserves(b: Bank, payer: UserId, amount: nat, sinks: Amounts)
    requires sinks.Total() == amount && PayPools(b, payer, amount, sinks).Some?
    ensures Supply(PayPools(b, payer, amount, sinks).value) == Supply(b)
  {
    hide Sum;
    SumUpdate(b.wallets, payer, Monus(Balance(b, payer), amount));
  }

  /** What a pool still owes to charges that can be refunded. */
  function Owed(charges: map<OpId, Charge>, pool: PoolType): map<OpId, nat> {
    map op | op in charges :: if charges[op].status == Charged then charges[op].sinks.Of(pool) else 0
  }

  /** Each pool covers every refund that may still be asked of it, and charges add up. */
  ghost predicate Covered(b: Bank) {
    && (forall pool: PoolType :: Sum(Owed(b.charges, pool)) <= b.pools.Of(pool))
    && forall op | op in b.charges :: b.charges[op].sinks.Total() == b.charges[op].amount
  }

  lemma {:induction false} OwedUpdate(charges: map<OpId, Charge>, pool: PoolType, op: OpId, c: Charge)
    ensures var v := if c.status == Charged then c.sinks.Of(pool) else 0;
            Owed(charges[op := c], pool) == Owed(charges, pool)[op := v]
            && Sum(Owed(charges[op := c], pool)) == Sum(Owed(charges, pool)) - Lookup(Owed(charges, pool), op) + v
  {
    hide Sum;
    var v := if c.status == Charged then c.sinks.Of(pool) else 0;
    assert Owed(charges[op := c], pool) == Owed(charges, pool)[op := v];
    SumUpdate(Owed(charges, pool), op, v);
  }

  lemma {:induction false} ChargeKeeps(shares: Shares, b: Bank, payer: UserId, amount: nat, op: OpId)
    requires Covered(b) && ChargeGas(shares, b, payer, amount, op).Some?
    ensures var b' := ChargeGas(shares, b, payer, amount, op).value; Covered(b') && Supply(b') == Supply(b)
  {
    hide Sum, Split, Owed, RoundedShare;
    var b' := ChargeGas(shares, b, payer, amount, op).value;
    if b' != b {
      var sinks := Split(shares, amount);
      if amount > 0 {
        PayPoolsConserves(b, payer, amount, sinks);
      }
      forall pool: PoolType
        ensures Sum(Owed(b'.charges, pool)) <= b'.pools.Of(pool)
      {
        OwedUpdate(b.charges, pool, op, Charge(payer, amount, sinks, Charged));
        assert sinks.Of(pool) <= sinks.Total();
      }
    }
  }

  lemma {:induction false} PoolsSuffice(b: Bank, op: OpId, pool: PoolType)
    requires Covered(b) && Charged?(b, op)
    ensures b.charges[op].sinks.Of(pool) <= b.pools.Of(pool)
  {
    hide Sum;
    SumBoundsEach(Owed(b.charges, pool), op);
  }

  lemma {:induction false} ExactMinus(p: Amounts, a: Amounts)
    requires forall pool: PoolType :: a.Of(pool) <= p.Of(pool)
    ensures p.SaturatingMinus(a).Total() == p.Total() - a.Total()
    ensures forall pool: PoolType :: p.SaturatingMinus(a).Of(pool) == p.Of(pool) - a.Of(pool)
  {
    assert a.Of(ValidatorRewards) <= p.Of(ValidatorRewards) && a.Of(RelayRewards) <= p.Of(RelayRewards);
    assert a.Of(Treasury) <= p.Of(Treasury) && a.Of(InsuranceFund) <= p.Of(InsuranceFund);
    assert a.Of(StorageBonds) <= p.Of(StorageBonds);
  }

  /** With covered pools a gas refund takes back exactly what was paid in. */
  lemma {:induction false} RefundKeeps(b: Bank, op: OpId)
    requires Covered(b) && RefundGas(b, op).Some?
    ensures var b' := RefundGas(b, op).value; Covered(b') && Supply(b') == Supply(b)
  {
    hide Sum, Owed;
    if Charged?(b, op) {
      var charge := b.charges[op];
      var b' := RefundGas(b, op).value;
      forall pool: PoolType
        ensures charge.sinks.Of(pool) <= b.pools.Of(pool)
      {
        PoolsSuffice(b, op, pool);
      }
      ExactMinus(b.pools, charge.sinks);
      SumUpdate(b.wallets, charge.payer, Balance(b, charge.payer) + charge.amount);
      forall pool: PoolType
        ensures Sum(Owed(b'.charges, pool)) <= b'.pools.Of(pool)
      {
        OwedUpdate(b.charges, pool, op, charge.(status := Refunded));
        OwedAt(b.charges, pool, op);
      }
    }
  }

  lemma OwedAt(charges: map<OpId, Charge>, pool: PoolType, op: OpId)
    requires op in charges && charges[op].status == Charged
    ensures Lookup(Owed(charges, pool), op) == charges[op].sinks.Of(pool)
  {
  }

  lemma {:induction false} CommitKeeps(b: Bank, op: OpId)
    requires Covered(b) && MarkCommitted(b, op).Some?
    ensures var b' := MarkCommitted(b, op).value; Covered(b') && Supply(b') == Supply(b)
  {
    hide Sum, Owed;
    var b' := MarkCommitted(b, op).value;
    forall pool: PoolType
      ensures Sum(Owed(b'.charges, pool)) <= b'.pools.Of(pool)
    {
      OwedUpdate(b.charges, pool, op, b.charges[op].(status := Committed));
    }
  }

  /** Operations that move money between wallets only. */
  ghost predicate OnlyWallets(b: Bank, b': Bank) {
    b'.pools == b.pools && b'.charges == b.charges && Supply(b') == Supply(b)
  }

  lemma OnlyWalletsKeeps(b: Bank, b': Bank)
    requires Covered(b) && OnlyWallets(b, b')
    ensures Covered(b') && Supply(b') == Supply(b)
  {
    hide Sum, Owed;
  }

  lemma {:induction false} HoldKeeps(b: Bank, bps: BasisPoints, id: EscrowId, amount: nat, account: UserId)
    requires CreateEscrow(b, bps, id, amount, account).Some?
    ensures OnlyWallets(b, CreateEscrow(b, bps, id, amount, account).value)
  {
    hide Sum, Burn;
    if id !in b.escrows {
      TransferConserves(b, bps, id.1, account, amount);
    }
  }

  lemma {:induction false} SettleKeeps(b: Bank, bps: BasisPoints, id: EscrowId, account: UserId, to: UserId, status: EscrowStatus)
    requires id in b.escrows && Settle(b, bps, id, account, to, status).Some?
    ensures OnlyWallets(b, Settle(b, bps, id, account, to, status).value)
  {
    hide Sum, Burn;
    TransferConserves(b, bps, account, to, b.escrows[id].amount);
  }

  lemma {:induction false} RefundEscrowsKeeps(b: Bank, bps: BasisPoints, op: OpId, order: seq<EscrowId>, accounts: EscrowId -> UserId)
    ensures OnlyWallets(b, RefundEscrows(b, bps, op, order, accounts))
  {
    hide Settle, OnlyWallets;
    SelfOnlyWallets(b);
    if order != [] {
      var n := |order| - 1;
      RefundEscrowsKeeps(b, bps, op, order[..n], accounts);
      var c := RefundEscrows(b, bps, op, order[..n], accounts);
      var d := TryRefund(c, bps, op, order[n], accounts(order[n]));
      if d != c {
        SettleKeeps(c, bps, order[n], accounts(order[n]), c.escrows[order[n]].payer, Returned);
        OnlyWalletsTransitive(b, c, d);
      }
    }
  }

  lemma SelfOnlyWallets(b: Bank)
    ensures OnlyWallets(b, b)
  {
  }

  lemma OnlyWalletsTransitive(b: Bank, c: Bank, d: Bank)
    requires OnlyWallets(b, c) && OnlyWallets(c, d)
    ensures OnlyWallets(b, d)
  {
    hide Supply;
  }

  // ---------- escrows are settled once ----------

  /** Records stay, and a settled record never changes again. */
  ghost predicate SettledStays(b: Bank, b': Bank) {
    forall id | id in b.escrows ::
      && id in b'.escrows
      && (b.escrows[id].status != Held ==> b'.escrows[id] == b.escrows[id])
      && b'.escrows[id].(status := Held) == b.escrows[id].(status := Held)
  }

  lemma {:induction false} TryRefundSettles(b: Bank, bps: BasisPoints, op: OpId, id: EscrowId, account: UserId)
    ensures SettledStays(b, TryRefund(b, bps, op, id, account))
  {
    hide Burn;
  }

  lemma {:induction false} RefundEscrowsSettle(b: Bank, bps: BasisPoints, op: OpId, order: seq<EscrowId>, accounts: EscrowId -> UserId)
    ensures SettledStays(b, RefundEscrows(b, bps, op, order, accounts))
  {
    hide TryRefund;
    if order != [] {
      var n := |order| - 1;
      RefundEscrowsSettle(b, bps, op, order[..n], accounts);
      TryRefundSettles(RefundEscrows(b, bps, op, order[..n], accounts), bps, op, order[n], accounts(order[n]));
    }
  }

  // ---------- what a single escrow costs the payer ----------

  /**
   Holding and then returning an escrow through one and the same account: the return succeeds
   exactly when the account can make up for the burn of the first transfer, and then the payer
   is short of exactly one burn.
   */
  lemma {:induction false} HoldThenRefund(b: Bank, bps: BasisPoints, id: EscrowId, amount: nat, account: UserId)
    requires id !in b.escrows && account != id.1
    requires CreateEscrow(b, bps, id, amount, account).Some?
    ensures var held := CreateEscrow(b, bps, id, amount, account).value;
            && (RefundEscrow(held, bps, id, account).Some? <==> Balance(b, account) >= Burn(bps, amount))
            && (RefundEscrow(held, bps, id, account).Some? ==>
                  Balance(RefundEscrow(held, bps, id, account).value, id.1) == Balance(b, id.1) - Burn(bps, amount))
  {
    hide Burn;
  }

  /** An account nobody has ever paid into cannot settle anything. */
  lemma {:induction false} UnknownAccountSettlesNothing(b: Bank, bps: BasisPoints, id: EscrowId, account: UserId)
    requires account !in b.wallets
    ensures ReleaseEscrow(b, bps, id, account).None? && RefundEscrow(b, bps, id, account).None?
  {
  }
}
