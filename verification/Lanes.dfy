/**
 Lanes: the sharding of transactions by primary account, and why miniblocks of different
 lanes may run in parallel.
 */
module Lanes {
  import opened Bytes
  import opened Canonical
  import opened Transactions
  import opened WorldState
  import opened StateEncoding

  /** `lane_for_transaction`: the first two digest bytes of the partition key, little-endian. */
  function LaneOf(digest: Digest, tx: Transaction): Result<U16, BlockError> {
    match LaneKey(tx)
    case Err(e) => Err(e)
    case Ok(key) => Ok(LaneOfKey(digest, key))
  }

  function LaneOfKey(digest: Digest, key: Bytes): (lane: U16)
    ensures LittleEndian(lane, 2) == digest(key)[..2]
  {
    LaneBytes(digest(key));
    var d := digest(key);
    (d[0] as int) + 256 * (d[1] as int)
  }

  lemma LaneBytes(d: Hash)
    ensures LittleEndian((d[0] as int) + 256 * (d[1] as int), 2) == d[..2]
  {
    var lane := (d[0] as int) + 256 * (d[1] as int);
    assert lane % 256 == d[0] && lane / 256 == d[1];
    assert LittleEndian(lane / 256, 1) == [lane / 256 % 256] + LittleEndian(lane / 256 / 256, 0);
  }

  ghost predicate InLane(digest: Digest, txs: seq<Transaction>, lane: U16) {
    forall i | 0 <= i < |txs| :: LaneOf(digest, txs[i]) == Ok(lane)
  }

  /** `validate_lane_sharding`: the first transaction that does not belong decides the error. */
  function LaneError(digest: Digest, lane: U16, txs: seq<Transaction>): (e: Option<BlockError>)
    ensures e.None? <==> InLane(digest, txs, lane)
  {
    if txs == [] then None
    else
      match LaneOf(digest, txs[0])
      case Err(e) => Some(e)
      case Ok(l) =>
        if l != lane then Some(LaneViolation(txs[0].txId, l, lane)) else LaneError(digest, lane, txs[1..])
  }

  /** The error that the transaction at `i` causes, all before it being in the lane. */
  ghost predicate FirstViolation(digest: Digest, lane: U16, txs: seq<Transaction>, i: nat, e: BlockError) {
    && i < |txs| && InLane(digest, txs[..i], lane)
    && match LaneOf(digest, txs[i])
       case Err(parse) => e == parse
       case Ok(own) => own != lane && e == LaneViolation(txs[i].txId, own, lane)
  }

  method ValidateLaneSharding(digest: Digest, lane: U16, txs: seq<Transaction>) returns (e: Option<BlockError>)
    ensures e == LaneError(digest, lane, txs)
    ensures e.None? <==> InLane(digest, txs, lane)
    ensures e.Some? ==> exists i: nat :: FirstViolation(digest, lane, txs, i, e.value)
  {
    hide LaneOfKey, LaneKey;
    var i := 0;
    while i < |txs|
      invariant 0 <= i <= |txs| && InLane(digest, txs[..i], lane)
      invariant LaneError(digest, lane, txs) == LaneError(digest, lane, txs[i..])
    {
      assert InLane(digest, txs[..i], lane);
      var l := LaneOf(digest, txs[i]);
      if l.Err? {
        assert FirstViolation(digest, lane, txs, i, l.error);
        return Some(l.error);
      }
      if l.value != lane {
        assert FirstViolation(digest, lane, txs, i, LaneViolation(txs[i].txId, l.value, lane));
        return Some(LaneViolation(txs[i].txId, l.value, lane));
      }
      i := i + 1;
    }
    e := None;
  }

  // ---------- independence of two transactions ----------

  ghost predicate Apart(x: Option<Bytes>, y: Option<Bytes>) {
    x.Some? && y.Some? ==> x.value != y.value
  }

  /** The owners differ and neither credits an account whose existence the other checks. */
  ghost predicate Independent(a: Transaction, b: Transaction) {
    Apart(Owner(a), Owner(b)) && Apart(CreditedRelay(a), Checked(b)) && Apart(CreditedRelay(b), Checked(a))
  }

  ghost predicate AllIndependent(xs: seq<Transaction>, ys: seq<Transaction>) {
    forall x, y | x in xs && y in ys :: Independent(x, y)
  }

  ghost predicate Within<V>(change: Option<(Bytes, V)>, account: Option<Bytes>) {
    change.Some? ==> account == Some(change.value.0)
  }

  lemma DeltaFootprint(tx: Transaction, balance: Option<U64>)
    requires Plan(tx, balance).Ok?
    ensures var d := Plan(tx, balance).value;
            Within(d.balance, Checked(tx)) && Within(d.stake, Owner(tx)) && Within(d.reputation, Owner(tx))
            && (Within(d.credit, CreditedRelay(tx)) || Within(d.credit, Owner(tx)))
  {
  }

  lemma CheckedIsOwner(tx: Transaction)
    ensures Checked(tx).Some? ==> Owner(tx) == Checked(tx)
  {
  }

  lemma {:induction false} BalanceUntouched(h: Digest, w: World, tx: Transaction, account: Bytes)
    requires Apart(Owner(tx), Some(account)) && Apart(CreditedRelay(tx), Some(account))
    ensures Balance(Apply(h, w, tx), account) == Balance(w, account)
  {
    hide HexEncode, Plan, StateHash, Owner, Checked, CreditedRelay;
    if Decide(w, tx).Ok? {
      var d := Decide(w, tx).value;
      DeltaFootprint(tx, if Checked(tx).Some? then Balance(w, Checked(tx).value) else None);
      CheckedIsOwner(tx);
      if d.balance.Some? && HexEncode(d.balance.value.0) == HexEncode(account) {
        HexInjective(d.balance.value.0, account);
      }
      if d.credit.Some? && HexEncode(d.credit.value.0) == HexEncode(account) {
        HexInjective(d.credit.value.0, account);
      }
    }
  }

  lemma {:induction false} DecisionUnaffected(h: Digest, w: World, a: Transaction, b: Transaction)
    requires Independent(a, b)
    ensures Decide(Apply(h, w, b), a) == Decide(w, a)
    ensures OutcomeOf(Apply(h, w, b), a) == OutcomeOf(w, a)
  {
    hide Apply, Plan, Balance, Owner, Checked, CreditedRelay;
    CheckedIsOwner(a);
    if Checked(a).Some? {
      BalanceUntouched(h, w, b, Checked(a).value);
    }
  }

  // ---------- the four columns commute ----------

  lemma {:induction false} AddsCommute<K>(m: map<K, U64>, j: K, k: K, x: U64, y: U64)
    ensures AddTo(AddTo(m, j, x), k, y) == AddTo(AddTo(m, k, y), j, x)
  {
    if j != k {
      assert AddTo(AddTo(m, j, x), k, y) == m[j := AddTo(m, j, x)[j]][k := AddTo(m, k, y)[k]];
    }
  }

  lemma {:induction false} PutAddCommute<K>(m: map<K, U64>, j: K, k: K, v: U64, y: U64)
    requires j != k
    ensures AddTo(m[j := v], k, y) == AddTo(m, k, y)[j := v]
  {
  }

  lemma {:induction false} HexApart(x: Bytes, y: Bytes)
    requires x != y
    ensures HexEncode(x) != HexEncode(y)
  {
    hide HexEncode;
    if HexEncode(x) == HexEncode(y) {
      HexInjective(x, y);
    }
  }

  ghost predicate ApartChanges<V, W>(x: Option<(Bytes, V)>, y: Option<(Bytes, W)>) {
    x.Some? && y.Some? ==> x.value.0 != y.value.0
  }

  lemma {:induction false} PutsCommute(m: Balances, p: Option<(Bytes, U64)>, q: Option<(Bytes, U64)>)
    requires ApartChanges(p, q)
    ensures PutBalance(PutBalance(m, p), q) == PutBalance(PutBalance(m, q), p)
  {
    hide HexEncode;
    if p.Some? && q.Some? {
      HexApart(p.value.0, q.value.0);
    }
  }

  lemma {:induction false} PutCreditCommute(m: Balances, p: Option<(Bytes, U64)>, c: Option<(Bytes, U64)>)
    requires ApartChanges(p, c)
    ensures Credit(PutBalance(m, p), c) == PutBalance(Credit(m, c), p)
  {
    hide HexEncode, AddTo;
    if p.Some? && c.Some? {
      HexApart(p.value.0, c.value.0);
      PutAddCommute(m, HexEncode(p.value.0), HexEncode(c.value.0), p.value.1, c.value.1);
    }
  }

  lemma {:induction false} CreditsCommute(m: Balances, c: Option<(Bytes, U64)>, d: Option<(Bytes, U64)>)
    ensures Credit(Credit(m, c), d) == Credit(Credit(m, d), c)
  {
    hide HexEncode, AddTo;
    if c.Some? && d.Some? {
      AddsCommute(m, HexEncode(c.value.0), HexEncode(d.value.0), c.value.1, d.value.1);
    }
  }

  lemma {:induction false} BalancesCommute(m: Balances, p: Option<(Bytes, U64)>, c: Option<(Bytes, U64)>,
                                           q: Option<(Bytes, U64)>, d: Option<(Bytes, U64)>)
    requires ApartChanges(p, q) && ApartChanges(q, c) && ApartChanges(p, d)
    ensures Credit(PutBalance(Credit(PutBalance(m, p), c), q), d)
         == Credit(PutBalance(Credit(PutBalance(m, q), d), p), c)
  {
    hide PutBalance, Credit;
    calc {
      Credit(PutBalance(Credit(PutBalance(m, p), c), q), d);
      { PutCreditCommute(PutBalance(m, p), q, c); }
      Credit(Credit(PutBalance(PutBalance(m, p), q), c), d);
      { PutsCommute(m, p, q); CreditsCommute(PutBalance(PutBalance(m, p), q), c, d); }
      Credit(Credit(PutBalance(PutBalance(m, q), p), d), c);
      { PutCreditCommute(PutBalance(m, q), p, d); }
      Credit(PutBalance(Credit(PutBalance(m, q), d), p), c);
    }
  }

  lemma {:induction false} StakesCommute(m: map<Bytes, U64>, p: Option<(Bytes, U64)>, q: Option<(Bytes, U64)>)
    ensures AddStake(AddStake(m, p), q) == AddStake(AddStake(m, q), p)
  {
    hide AddTo;
    if p.Some? && q.Some? {
      AddsCommute(m, p.value.0, q.value.0, p.value.1, q.value.1);
    }
  }

  lemma {:induction false} ReputationsCommute(m: map<Bytes, int>, p: Option<(Bytes, int)>, q: Option<(Bytes, int)>)
    requires ApartChanges(p, q)
    ensures PutReputation(PutReputation(m, p), q) == PutReputation(PutReputation(m, q), p)
  {
  }

  lemma CommitRoot(h: Digest, w: World, d: Delta)
    ensures Commit(h, w, d).stateRoot == StateHash(h, Commit(h, w, d))
  {
    hide StatePreimage, PutBalance, Credit, AddStake, PutReputation;
  }

  lemma SameColumnsSameHash(h: Digest, v: World, w: World)
    requires v.balances == w.balances && v.nonces == w.nonces && v.storage == w.storage
    ensures StateHash(h, v) == StateHash(h, w)
  {
    hide StatePreimage;
  }

  lemma {:induction false} CommitsCommute(h: Digest, w: World, d: Delta, e: Delta)
    requires ApartChanges(d.balance, e.balance) && ApartChanges(d.reputation, e.reputation)
    requires ApartChanges(e.balance, d.credit) && ApartChanges(d.balance, e.credit)
    ensures Commit(h, Commit(h, w, d), e) == Commit(h, Commit(h, w, e), d)
  {
    hide PutBalance, Credit, AddStake, PutReputation, StateHash;
    var x, y := Commit(h, Commit(h, w, d), e), Commit(h, Commit(h, w, e), d);
    BalancesCommute(w.balances, d.balance, d.credit, e.balance, e.credit);
    StakesCommute(w.stakes, d.stake, e.stake);
    ReputationsCommute(w.reputation, d.reputation, e.reputation);
    CommitRoot(h, Commit(h, w, d), e);
    CommitRoot(h, Commit(h, w, e), d);
    SameColumnsSameHash(h, x, y);
  }

  /** Two independent transactions in either order: the same ledger, state root included. */
  lemma {:induction false} IndependentCommute(h: Digest, w: World, a: Transaction, b: Transaction)
    requires Independent(a, b)
    ensures Apply(h, Apply(h, w, a), b) == Apply(h, Apply(h, w, b), a)
  {
    DecisionUnaffected(h, w, a, b);
    DecisionUnaffected(h, w, b, a);
    hide Plan, Commit, Balance, Owner, Checked, CreditedRelay;
    CheckedIsOwner(a);
    CheckedIsOwner(b);
    if Decide(w, a).Ok? && Decide(w, b).Ok? {
      DeltaFootprint(a, if Checked(a).Some? then Balance(w, Checked(a).value) else None);
      DeltaFootprint(b, if Checked(b).Some? then Balance(w, Checked(b).value) else None);
      CommitsCommute(h, w, Decide(w, a).value, Decide(w, b).value);
    }
  }

  // ---------- interleavings ----------

  /** `c` is a merge of `a` and `b`: any schedule of two lanes. */
  ghost predicate IsInterleaving<T(!new)>(a: seq<T>, b: seq<T>, c: seq<T>)
    decreases |c|
  {
    if c == [] then a == [] && b == []
    else
      || (a != [] && c[0] == a[0] && IsInterleaving(a[1..], b, c[1..]))
      || (b != [] && c[0] == b[0] && IsInterleaving(a, b[1..], c[1..]))
  }

  /** Every transaction with what became of it. */
  ghost function Trace(h: Digest, w: World, txs: seq<Transaction>): seq<(Transaction, Outcome)>
    decreases |txs|
  {
    if txs == [] then []
    else [(txs[0], OutcomeOf(w, txs[0]))] + Trace(h, Apply(h, w, txs[0]), txs[1..])
  }

  lemma {:induction false} RunAppend(h: Digest, w: World, a: seq<Transaction>, b: seq<Transaction>)
    ensures Run(h, w, a + b) == Run(h, Run(h, w, a), b)
    decreases |a|
  {
    hide Apply;
    if a == [] {
      assert a + b == b;
    } else {
      assert (a + b)[1..] == a[1..] + b;
      RunAppend(h, Apply(h, w, a[0]), a[1..], b);
    }
  }

  /** One independent transaction may be moved past a whole list, and the list does not notice. */
  lemma {:induction false} RunPast(h: Digest, w: World, xs: seq<Transaction>, y: Transaction)
    requires forall x | x in xs :: Independent(x, y)
    ensures Run(h, Apply(h, w, y), xs) == Apply(h, Run(h, w, xs), y)
    ensures Trace(h, Apply(h, w, y), xs) == Trace(h, w, xs)
    decreases |xs|
  {
    hide Apply, Independent, OutcomeOf;
    if xs != [] {
      var x := xs[0];
      assert Independent(x, y);
      DecisionUnaffected(h, w, x, y);
      IndependentCommute(h, w, x, y);
      RunPast(h, Apply(h, w, x), xs[1..], y);
    }
  }

  /** The same with the roles of the pair exchanged. */
  lemma IndependentSymmetric(a: Transaction, b: Transaction)
    ensures Independent(a, b) <==> Independent(b, a)
  {
  }

  lemma {:induction false} InterleavingRuns(h: Digest, w: World, a: seq<Transaction>, b: seq<Transaction>,
                                            c: seq<Transaction>)
    requires AllIndependent(a, b) && IsInterleaving(a, b, c)
    ensures Run(h, w, c) == Run(h, w, a + b)
    ensures IsInterleaving(Trace(h, w, a), Trace(h, w, b), Trace(h, w, c))
    decreases |c|
  {
    hide Apply, Independent, OutcomeOf;
    if c == [] {
      assert a + b == [];
    } else if a != [] && c[0] == a[0] && IsInterleaving(a[1..], b, c[1..]) {
      var w1 := Apply(h, w, a[0]);
      InterleavingRuns(h, w1, a[1..], b, c[1..]);
      assert (a + b)[1..] == a[1..] + b;
      forall x | x in b
        ensures Independent(x, a[0])
      {
        IndependentSymmetric(a[0], x);
      }
      RunPast(h, w, b, a[0]);
      InterleaveLeft(Trace(h, w, a), Trace(h, w, b), Trace(h, w, c));
    } else {
      var w1 := Apply(h, w, b[0]);
      InterleavingRuns(h, w1, a, b[1..], c[1..]);
      RunPast(h, w, a, b[0]);
      RunAppend(h, w1, a, b[1..]);
      RunAppend(h, w, a, b);
      InterleaveRight(Trace(h, w, a), Trace(h, w, b), Trace(h, w, c));
    }
  }

  lemma InterleaveLeft<T(!new)>(a: seq<T>, b: seq<T>, c: seq<T>)
    requires a != [] && c != [] && c[0] == a[0] && IsInterleaving(a[1..], b, c[1..])
    ensures IsInterleaving(a, b, c)
  {
  }

  lemma InterleaveRight<T(!new)>(a: seq<T>, b: seq<T>, c: seq<T>)
    requires b != [] && c != [] && c[0] == b[0] && IsInterleaving(a, b[1..], c[1..])
    ensures IsInterleaving(a, b, c)
  {
  }

  // ---------- the theorem about lanes ----------

  /** No transaction of `xs` credits an account whose existence one of `ys` checks. */
  ghost predicate NoCreditInto(xs: seq<Transaction>, ys: seq<Transaction>) {
    forall x, y | x in xs && y in ys :: Apart(CreditedRelay(x), Checked(y))
  }

  lemma {:induction false} LanesAreIndependent(digest: Digest, a: seq<Transaction>, la: U16,
                                               b: seq<Transaction>, lb: U16)
    requires InLane(digest, a, la) && InLane(digest, b, lb) && la != lb
    requires NoCreditInto(a, b) && NoCreditInto(b, a)
    ensures AllIndependent(a, b)
  {
    hide LaneOfKey;
    forall x, y | x in a && y in b
      ensures Independent(x, y)
    {
      assert LaneOf(digest, x) == Ok(la) && LaneOf(digest, y) == Ok(lb);
      OwnerIsLaneKey(x);
      OwnerIsLaneKey(y);
    }
  }

  lemma OwnerIsLaneKey(tx: Transaction)
    ensures Owner(tx).Some? ==> LaneKey(tx) == Ok(Owner(tx).value)
  {
  }

  /**
   The lane of a transaction comes from the account it acts for; joining goes with the user, a
   delivery with its recipient, a profile update with its own hash.  A payload that does not parse
   has no lane.
   */
  lemma LaneComesFrom(digest: Digest, tx: Transaction)
    ensures match tx.call
            case RegisterUser(p) => if p.Ok? then InLaneOf(digest, tx, p.value.userId) else HasNoLane(digest, tx, p.error)
            case SendDirectMessage(p) => if p.Ok? then InLaneOf(digest, tx, p.value.senderId) else HasNoLane(digest, tx, p.error)
            case CreateChannel(p) => if p.Ok? then InLaneOf(digest, tx, p.value.creatorId) else HasNoLane(digest, tx, p.error)
            case PostToChannel(p) => if p.Ok? then InLaneOf(digest, tx, p.value.senderId) else HasNoLane(digest, tx, p.error)
            case JoinChannel(p) => if p.Ok? then InLaneOf(digest, tx, p.value.userId) else HasNoLane(digest, tx, p.error)
            case UpdateProfile => InLaneOf(digest, tx, tx.txHash)
            case SubmitDeliveryProof(p) => if p.Ok? then InLaneOf(digest, tx, p.value.recipientId) else HasNoLane(digest, tx, p.error)
  {
    hide LaneOfKey;
  }

  /** The lane, in two little-endian bytes, begins the digest of the account. */
  ghost predicate InLaneOf(digest: Digest, tx: Transaction, account: Bytes) {
    LaneOf(digest, tx).Ok? && LittleEndian(LaneOf(digest, tx).value, 2) == digest(account)[..2]
  }

  ghost predicate HasNoLane(digest: Digest, tx: Transaction, message: string) {
    LaneOf(digest, tx) == Err(InvalidTransaction(message))
  }

  /**
   Parallel lanes: every schedule of two miniblocks of different lanes ends in the ledger of
   running one after the other, and each transaction has the outcome it has when its own
   miniblock runs alone.
   */
  lemma {:induction false} ParallelLanes(h: Digest, w: World, a: seq<Transaction>, la: U16,
                                         b: seq<Transaction>, lb: U16, c: seq<Transaction>)
    requires InLane(h, a, la) && InLane(h, b, lb) && la != lb
    requires NoCreditInto(a, b) && NoCreditInto(b, a)
    requires IsInterleaving(a, b, c)
    ensures Run(h, w, c) == Run(h, w, a + b)
    ensures IsInterleaving(Trace(h, w, a), Trace(h, w, b), Trace(h, w, c))
  {
    LanesAreIndependent(h, a, la, b, lb);
    InterleavingRuns(h, w, a, b, c);
  }

  lemma {:induction false} ConcatInterleaves<T(!new)>(a: seq<T>, b: seq<T>)
    ensures IsInterleaving(a, b, a + b) && IsInterleaving(a, b, b + a)
    decreases |a| + |b|
  {
    if a == [] {
      assert a + b == b && b + a == b;
      if b != [] {
        ConcatInterleaves(a, b[1..]);
        assert a + b[1..] == b[1..];
      }
    } else if b == [] {
      assert a + b == a && b + a == a;
      ConcatInterleaves(a[1..], b);
      assert a[1..] + b == a[1..];
    } else {
      ConcatInterleaves(a[1..], b);
      ConcatInterleaves(a, b[1..]);
      assert (a + b)[1..] == a[1..] + b && (b + a)[1..] == b[1..] + a;
    }
  }

  /** Either order of two miniblocks of different lanes. */
  lemma {:induction false} LanesCommute(h: Digest, w: World, a: seq<Transaction>, la: U16,
                                        b: seq<Transaction>, lb: U16)
    requires InLane(h, a, la) && InLane(h, b, lb) && la != lb
    requires NoCreditInto(a, b) && NoCreditInto(b, a)
    ensures Run(h, Run(h, w, a), b) == Run(h, Run(h, w, b), a)
    ensures Outcomes(h, Run(h, w, b), a) == Outcomes(h, w, a)
    ensures Outcomes(h, Run(h, w, a), b) == Outcomes(h, w, b)
  {
    LanesAreIndependent(h, a, la, b, lb);
    ConcatInterleaves(a, b);
    InterleavingRuns(h, w, a, b, b + a);
    RunAppend(h, w, a, b);
    RunAppend(h, w, b, a);
    OutcomesUnaffected(h, w, a, b);
    forall x, y | x in b && y in a
      ensures Independent(x, y)
    {
      IndependentSymmetric(x, y);
    }
    OutcomesUnaffected(h, w, b, a);
  }

  /** A list has the same outcomes after any run of independent transactions. */
  lemma {:induction false} OutcomesUnaffected(h: Digest, w: World, xs: seq<Transaction>, ys: seq<Transaction>)
    requires AllIndependent(xs, ys)
    ensures Outcomes(h, Run(h, w, ys), xs) == Outcomes(h, w, xs)
    decreases |ys|
  {
    hide Apply, Independent, OutcomeOf;
    if ys != [] {
      var w1 := Apply(h, w, ys[0]);
      OutcomesUnaffected(h, w1, xs, ys[1..]);
      RunPast(h, w, xs, ys[0]);
      TraceOutcomes(h, w, w1, xs);
    }
  }

  lemma {:induction false} TraceOutcomes(h: Digest, v: World, w: World, xs: seq<Transaction>)
    requires Trace(h, v, xs) == Trace(h, w, xs)
    ensures Outcomes(h, v, xs) == Outcomes(h, w, xs)
    decreases |xs|
  {
    hide Apply, OutcomeOf;
    if xs != [] {
      var v1, w1 := Apply(h, v, xs[0]), Apply(h, w, xs[0]);
      assert Trace(h, v, xs)[0] == Trace(h, w, xs)[0];
      assert Trace(h, v1, xs[1..]) == Trace(h, v, xs)[1..] == Trace(h, w, xs)[1..] == Trace(h, w1, xs[1..]);
      TraceOutcomes(h, v1, w1, xs[1..]);
    }
  }

  // ---------- the restriction on credits is exact ----------

  /** In this ledger the order of the two changes nothing, neither the ledger nor an outcome. */
  ghost predicate OrderIrrelevant(h: Digest, w: World, a: Transaction, b: Transaction) {
    && Apply(h, Apply(h, w, a), b) == Apply(h, Apply(h, w, b), a)
    && OutcomeOf(Apply(h, w, b), a) == OutcomeOf(w, a)
    && OutcomeOf(Apply(h, w, a), b) == OutcomeOf(w, b)
  }

  /**
   Rewarding a relay creates its account.  If the other transaction checks for that account,
   there is a ledger where it fails first and has another outcome afterwards.
   */
  lemma {:induction false} CrossCreditMatters(h: Digest, a: Transaction, b: Transaction) returns (w: World)
    requires Apart(Owner(a), Owner(b)) && CreditedRelay(a).Some? && CreditedRelay(a) == Checked(b)
    ensures OutcomeOf(w, b).Err? && OutcomeOf(Apply(h, w, a), b) != OutcomeOf(w, b)
  {
    var x := Checked(b).value;
    w := if Owner(a).Some? then NEW_WORLD.(balances := map[HexEncode(Owner(a).value) := 0]) else NEW_WORLD;
    CheckedIsOwner(b);
    if Owner(a).Some? {
      HexApart(Owner(a).value, x);
    }
    assert Balance(w, x).None?;
    CreditCreates(h, w, a);
    AbsentDiffers(w, Apply(h, w, a), b);
  }

  lemma {:induction false} CreditCreates(h: Digest, w: World, a: Transaction)
    requires CreditedRelay(a).Some? && (Owner(a).Some? ==> Balance(w, Owner(a).value).Some?)
    ensures Balance(Apply(h, w, a), CreditedRelay(a).value).Some?
  {
    hide HexEncode, Decimal, StateHash;
  }

  lemma {:induction false} AbsentDiffers(w: World, w': World, b: Transaction)
    requires Checked(b).Some? && Balance(w, Checked(b).value).None? && Balance(w', Checked(b).value).Some?
    ensures OutcomeOf(w, b).Err? && OutcomeOf(w', b) != OutcomeOf(w, b)
  {
    hide HexEncode, Decimal, Balance;
    assert "Creator not registered"[0] != "Insufficient stake: "[0];
    if OutcomeOf(w', b).Err? {
      assert OutcomeOf(w, b).error.message[0] == 'C' && OutcomeOf(w', b).error.message[0] == 'I';
    }
  }

  /**
   Two transactions of different owners commute in every ledger, outcomes included, if and only
   if neither credits an account whose existence the other checks.
   */
  lemma {:induction false} CommuteIff(h: Digest, a: Transaction, b: Transaction)
    requires Apart(Owner(a), Owner(b))
    ensures (forall w: World :: OrderIrrelevant(h, w, a, b))
       <==> Apart(CreditedRelay(a), Checked(b)) && Apart(CreditedRelay(b), Checked(a))
  {
    hide Apply, OutcomeOf, Owner, Checked, CreditedRelay;
    if Independent(a, b) {
      forall w: World
        ensures OrderIrrelevant(h, w, a, b)
      {
        IndependentCommute(h, w, a, b);
        DecisionUnaffected(h, w, a, b);
        DecisionUnaffected(h, w, b, a);
      }
    } else if !Apart(CreditedRelay(a), Checked(b)) {
      var w := CrossCreditMatters(h, a, b);
      assert !OrderIrrelevant(h, w, a, b);
    } else {
      var w := CrossCreditMatters(h, b, a);
      assert !OrderIrrelevant(h, w, a, b);
    }
  }

  /** Different lanes do not help: two miniblocks of one transaction each, and a ledger where the order shows. */
  lemma {:induction false} LanesCanClash(h: Digest, a: Transaction, la: U16, b: Transaction, lb: U16) returns (w: World)
    requires InLane(h, [a], la) && InLane(h, [b], lb) && la != lb && !NoCreditInto([a], [b])
    ensures Outcomes(h, Run(h, w, [a]), [b]) != Outcomes(h, w, [b])
  {
    hide Apply, OutcomeOf, LaneOfKey;
    assert LaneOf(h, [a][0]) == Ok(la) && LaneOf(h, [b][0]) == Ok(lb);
    OwnerIsLaneKey(a);
    OwnerIsLaneKey(b);
    w := CrossCreditMatters(h, a, b);
    assert [a][1..] == [] && [b][1..] == [];
    assert Run(h, w, [a]) == Apply(h, w, a);
    assert Outcomes(h, w, [b])[0] == OutcomeOf(w, b) && Outcomes(h, Apply(h, w, a), [b])[0] == OutcomeOf(Apply(h, w, a), b);
  }
}
