/** Subblocks: at most ten miniblocks, in order, one lane each. */
module Subblocks {
  import opened Bytes
  import opened Canonical
  import opened Transactions
  import opened WorldState
  import opened Lanes
  import opened Miniblocks
  import HashMerkle
  import HeaderEncoding

  /** A miniblock as a value. */
  datatype Slot = Slot(header: MiniblockHeader, body: Option<MiniblockBody>) {
    function Transactions(): seq<Transaction> {
      if body.Some? then body.value.transactions else []
    }
  }

  /** `add_miniblock`. */
  function Add(slots: seq<Slot>, slot: Slot): Result<seq<Slot>, BlockError> {
    if |slots| >= MAX_MINIBLOCKS then Err(MiniblockLimitExceeded)
    else if slot.header.index != |slots| then Err(InvalidTransaction("miniblock index not sequential"))
    else if exists i | 0 <= i < |slots| :: slots[i].header.lane == slot.header.lane then Err(DuplicateLane)
    else Ok(slots + [slot])
  }

  class Subblock {
    var miniblocks: seq<Miniblock>

    constructor ()
      ensures miniblocks == []
    {
      miniblocks := [];
    }

    ghost function Slots(): (slots: seq<Slot>)
      reads this, miniblocks
      ensures |slots| == |miniblocks|
    {
      SlotsOf(miniblocks)
    }

    static ghost function SlotsOf(mbs: seq<Miniblock>): (slots: seq<Slot>)
      reads mbs
      ensures |slots| == |mbs|
      ensures forall i | 0 <= i < |mbs| :: slots[i] == Slot(mbs[i].header, mbs[i].body)
    {
      if mbs == [] then []
      else
        var n := |mbs| - 1;
        SlotsOf(mbs[..n]) + [Slot(mbs[n].header, mbs[n].body)]
    }

    method AddMiniblock(mb: Miniblock) returns (r: Result<(), BlockError>)
      modifies this
      ensures r.Ok? <==>
        && |old(miniblocks)| < 10 && mb.header.index == |old(miniblocks)|
        && forall i | 0 <= i < |old(miniblocks)| :: old(miniblocks)[i].header.lane != mb.header.lane
      ensures r == Err(MiniblockLimitExceeded) <==> |old(miniblocks)| >= 10
      ensures r == Err(InvalidTransaction("miniblock index not sequential")) <==>
        |old(miniblocks)| < 10 && mb.header.index != |old(miniblocks)|
      ensures r == Err(DuplicateLane) <==>
        && |old(miniblocks)| < 10 && mb.header.index == |old(miniblocks)|
        && exists i | 0 <= i < |old(miniblocks)| :: old(miniblocks)[i].header.lane == mb.header.lane
      ensures r.Ok? ==> miniblocks == old(miniblocks) + [mb]
      ensures r.Err? ==> miniblocks == old(miniblocks)
      ensures var attempt := Add(old(Slots()), Slot(mb.header, mb.body));
              && (r.Ok? <==> attempt.Ok?)
              && (r.Err? ==> r.error == attempt.error && miniblocks == old(miniblocks))
              && (r.Ok? ==> miniblocks == old(miniblocks) + [mb] && Slots() == attempt.value)
    {
      if |miniblocks| >= MAX_MINIBLOCKS {
        return Err(MiniblockLimitExceeded);
      }
      if mb.header.index != |miniblocks| {
        return Err(InvalidTransaction("miniblock index not sequential"));
      }
      for i := 0 to |miniblocks|
        invariant forall j | 0 <= j < i :: miniblocks[j].header.lane != mb.header.lane
      {
        if miniblocks[i].header.lane == mb.header.lane {
          assert Slots()[i].header.lane == mb.header.lane;
          return Err(DuplicateLane);
        }
      }
      assert (miniblocks + [mb])[..|miniblocks|] == miniblocks;
      miniblocks := miniblocks + [mb];
      r := Ok(());
    }

    /** `calculate_merkle_root`. */
    method CalculateMerkleRoot(digest: Digest) returns (root: Hash)
      ensures root == SubblockRoot(digest, Headers(Slots()))
      ensures root == HashMerkle.TreeHash(PlainNode(digest), ZERO_HASH, HeaderEncoding.HeaderHashes(digest, Headers(Slots())))
    {
      hide HashMerkle.TreeHash, HeaderEncoding.HeaderHash, HeaderEncoding.HeaderHashes, Headers, SlotsOf;
      ghost var all := HeaderEncoding.HeaderHashes(digest, Headers(Slots()));
      var hashes: seq<Hash> := [];
      for i := 0 to |miniblocks|
        invariant hashes == all[..i]
      {
        assert all[i] == HeaderEncoding.HeaderHash(digest, Slots()[i].header);
        hashes := hashes + [HeaderEncoding.HeaderHash(digest, miniblocks[i].header)];
      }
      assert all[..|miniblocks|] == all;
      root := HashMerkle.MerkleRoot(PlainNode(digest), ZERO_HASH, hashes);
    }
  }

  // ---------- the subblock's root ----------

  function Headers(slots: seq<Slot>): (hs: seq<MiniblockHeader>)
    ensures |hs| == |slots| && forall i | 0 <= i < |slots| :: hs[i] == slots[i].header
  {
    if slots == [] then [] else Headers(slots[..|slots| - 1]) + [slots[|slots| - 1].header]
  }

  /** The untagged tree over the header hashes. */
  ghost function SubblockRoot(digest: Digest, hs: seq<MiniblockHeader>): Hash {
    HashMerkle.TreeHash(PlainNode(digest), ZERO_HASH, HeaderEncoding.HeaderHashes(digest, hs))
  }

  // ---------- every subblock that can be built ----------

  /** The slots after a sequence of attempts, rejected ones having no effect. */
  function Build(attempts: seq<Slot>): seq<Slot> {
    if attempts == [] then []
    else
      var n := |attempts| - 1;
      var before := Build(attempts[..n]);
      match Add(before, attempts[n])
      case Ok(after) => after
      case Err(_) => before
  }

  ghost predicate WellFormed(slots: seq<Slot>) {
    && |slots| <= MAX_MINIBLOCKS
    && (forall i | 0 <= i < |slots| :: slots[i].header.index == i)
    && (forall i, j | 0 <= i < j < |slots| :: slots[i].header.lane != slots[j].header.lane)
  }

  /** What `Miniblock::new` guarantees of the body it was given. */
  ghost predicate Sharded(digest: Digest, slot: Slot) {
    InLane(digest, slot.Transactions(), slot.header.lane)
  }

  lemma {:induction false} BuildIsWellFormed(digest: Digest, attempts: seq<Slot>)
    requires forall a | a in attempts :: Sharded(digest, a)
    ensures WellFormed(Build(attempts))
    ensures forall s | s in Build(attempts) :: Sharded(digest, s)
  {
    hide Sharded;
    if attempts != [] {
      BuildIsWellFormed(digest, attempts[..|attempts| - 1]);
    }
  }

  /**
   Account isolation: in any subblock built from sharded miniblocks, two transactions with one
   partition key lie in the same miniblock.
   */
  lemma {:induction false} AccountIsolation(digest: Digest, attempts: seq<Slot>, i: nat, j: nat,
                                            s: Transaction, t: Transaction)
    requires forall a | a in attempts :: Sharded(digest, a)
    requires i < |Build(attempts)| && j < |Build(attempts)|
    requires s in Build(attempts)[i].Transactions() && t in Build(attempts)[j].Transactions()
    requires LaneKey(s) == LaneKey(t)
    ensures i == j
  {
    hide Build, LaneKey, LaneOfKey;
    BuildIsWellFormed(digest, attempts);
    var slots := Build(attempts);
    assert Sharded(digest, slots[i]) && Sharded(digest, slots[j]);
    assert LaneOf(digest, s) == Ok(slots[i].header.lane);
    assert LaneOf(digest, t) == Ok(slots[j].header.lane);
  }

  // ---------- parallel execution of a whole subblock ----------

  function Lists(slots: seq<Slot>): (lists: seq<seq<Transaction>>)
    ensures |lists| == |slots|
    ensures forall i | 0 <= i < |slots| :: lists[i] == slots[i].Transactions()
  {
    if slots == [] then [] else [slots[0].Transactions()] + Lists(slots[1..])
  }

  function Flatten(lists: seq<seq<Transaction>>): seq<Transaction> {
    if lists == [] then [] else lists[0] + Flatten(lists[1..])
  }

  /** `c` runs all the lists, each in its own order, arbitrarily interleaved. */
  ghost predicate IsSchedule<T(!new)>(lists: seq<seq<T>>, c: seq<T>) {
    if lists == [] then c == []
    else exists d :: IsSchedule(lists[1..], d) && IsInterleaving(lists[0], d, c)
  }

  ghost predicate PairwiseIndependent(lists: seq<seq<Transaction>>) {
    forall i, j | 0 <= i < j < |lists| :: AllIndependent(lists[i], lists[j])
  }

  lemma {:induction false} InterleavingElements(a: seq<Transaction>, b: seq<Transaction>, c: seq<Transaction>, x: Transaction)
    requires IsInterleaving(a, b, c) && x in c
    ensures x in a || x in b
    decreases |c|
  {
    if x != c[0] {
      if a != [] && c[0] == a[0] && IsInterleaving(a[1..], b, c[1..]) {
        InterleavingElements(a[1..], b, c[1..], x);
      } else {
        InterleavingElements(a, b[1..], c[1..], x);
      }
    }
  }

  lemma {:induction false} ScheduleElements(lists: seq<seq<Transaction>>, c: seq<Transaction>, x: Transaction)
    returns (i: nat)
    requires IsSchedule(lists, c) && x in c
    ensures i < |lists| && x in lists[i]
    decreases |lists|
  {
    var d :| IsSchedule(lists[1..], d) && IsInterleaving(lists[0], d, c);
    InterleavingElements(lists[0], d, c, x);
    if x in lists[0] {
      i := 0;
    } else {
      i := ScheduleElements(lists[1..], d, x);
      i := i + 1;
    }
  }

  /** The trace of each list when it runs alone. */
  ghost function Traces(h: Digest, w: World, lists: seq<seq<Transaction>>): (ts: seq<seq<(Transaction, Outcome)>>)
    ensures |ts| == |lists| && forall i | 0 <= i < |lists| :: ts[i] == Trace(h, w, lists[i])
  {
    if lists == [] then [] else [Trace(h, w, lists[0])] + Traces(h, w, lists[1..])
  }

  lemma {:induction false} ScheduleRuns(h: Digest, w: World, lists: seq<seq<Transaction>>, c: seq<Transaction>)
    requires PairwiseIndependent(lists) && IsSchedule(lists, c)
    ensures Run(h, w, c) == Run(h, w, Flatten(lists))
    ensures IsSchedule(Traces(h, w, lists), Trace(h, w, c))
    decreases |lists|
  {
    if lists == [] {
      assert Trace(h, w, []) == [];
    }
    hide Run, Trace, IsInterleaving, Independent;
    if lists != [] {
      var d :| IsSchedule(lists[1..], d) && IsInterleaving(lists[0], d, c);
      var rest := lists[1..];
      assert PairwiseIndependent(rest) by {
        assert forall i | 0 <= i < |rest| :: rest[i] == lists[i + 1];
      }
      forall x, y | x in lists[0] && y in d
        ensures Independent(x, y)
      {
        var i := ScheduleElements(rest, d, y);
        assert AllIndependent(lists[0], lists[i + 1]);
      }
      InterleavingRuns(h, w, lists[0], d, c);
      RunAppend(h, w, lists[0], d);
      RunAppend(h, w, lists[0], Flatten(rest));
      ScheduleRuns(h, Run(h, w, lists[0]), rest, d);
      ScheduleRuns(h, w, rest, d);
      assert Traces(h, w, lists)[1..] == Traces(h, w, rest);
    }
  }

  /**
   Any interleaved execution of all the miniblocks of a subblock ends in the ledger of running
   them one after the other, and each transaction has the outcome it has when its own miniblock
   runs alone.
   */
  lemma {:induction false} SubblockRunsInParallel(h: Digest, w: World, attempts: seq<Slot>, c: seq<Transaction>)
    requires forall a | a in attempts :: Sharded(h, a)
    requires forall i, j | 0 <= i < |Build(attempts)| && 0 <= j < |Build(attempts)| && i != j ::
               NoCreditInto(Build(attempts)[i].Transactions(), Build(attempts)[j].Transactions())
    requires IsSchedule(Lists(Build(attempts)), c)
    ensures Run(h, w, c) == Run(h, w, Flatten(Lists(Build(attempts))))
    ensures IsSchedule(Traces(h, w, Lists(Build(attempts))), Trace(h, w, c))
  {
    hide Build, InLane, NoCreditInto, AllIndependent, IsSchedule;
    BuildIsWellFormed(h, attempts);
    var slots := Build(attempts);
    var lists := Lists(slots);
    forall i, j | 0 <= i < j < |lists|
      ensures AllIndependent(lists[i], lists[j])
    {
      assert Sharded(h, slots[i]) && Sharded(h, slots[j]);
      LanesAreIndependent(h, lists[i], slots[i].header.lane, lists[j], slots[j].header.lane);
    }
    ScheduleRuns(h, w, lists, c);
  }
}
