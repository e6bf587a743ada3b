/**
 Packing a block's transactions into subblocks and miniblocks
 (`distribute_transactions_to_subblocks` of `chain_synchronizer.rs`).
 */
module Packer {
  import opened Bytes

  const TX_PER_MINIBLOCK: nat := 250
  const MINIBLOCKS_PER_SUBBLOCK: nat := 10
  const SUBBLOCKS_PER_BLOCK: nat := 10
  const SUBBLOCK_CAPACITY: nat := MINIBLOCKS_PER_SUBBLOCK * TX_PER_MINIBLOCK
  const CAPACITY: nat := SUBBLOCKS_PER_BLOCK * SUBBLOCK_CAPACITY

  datatype Miniblock<T> = Miniblock(index: nat, transactions: seq<T>)

  datatype Subblock<T> = Subblock(index: nat, miniblocks: seq<Miniblock<T>>)

  function FlattenMiniblocks<T>(ms: seq<Miniblock<T>>): seq<T> {
    if ms == [] then [] else FlattenMiniblocks(ms[..|ms| - 1]) + ms[|ms| - 1].transactions
  }

  function Flatten<T>(ss: seq<Subblock<T>>): seq<T> {
    if ss == [] then [] else Flatten(ss[..|ss| - 1]) + FlattenMiniblocks(ss[|ss| - 1].miniblocks)
  }

  /** Indices count up, nothing is empty, and every miniblock but the last is full. */
  ghost predicate PackedMiniblocks<T>(ms: seq<Miniblock<T>>) {
    && |ms| <= MINIBLOCKS_PER_SUBBLOCK
    && (forall i | 0 <= i < |ms| :: ms[i].index == i && 0 < |ms[i].transactions| <= TX_PER_MINIBLOCK)
    && (forall i | 0 <= i < |ms| - 1 :: |ms[i].transactions| == TX_PER_MINIBLOCK)
  }

  /** The same one level up: every subblock but the last holds ten full miniblocks. */
  ghost predicate PackedSubblocks<T>(ss: seq<Subblock<T>>) {
    && |ss| <= SUBBLOCKS_PER_BLOCK
    && (forall i | 0 <= i < |ss| :: ss[i].index == i && ss[i].miniblocks != [] && PackedMiniblocks(ss[i].miniblocks))
    && (forall i | 0 <= i < |ss| - 1 :: |FlattenMiniblocks(ss[i].miniblocks)| == SUBBLOCK_CAPACITY)
  }

  lemma {:induction false} FlattenMiniblocksAppend<T>(ms: seq<Miniblock<T>>, m: Miniblock<T>)
    ensures FlattenMiniblocks(ms + [m]) == FlattenMiniblocks(ms) + m.transactions
  {
    assert (ms + [m])[..|ms|] == ms;
  }

  lemma {:induction false} FlattenAppend<T>(ss: seq<Subblock<T>>, s: Subblock<T>)
    ensures Flatten(ss + [s]) == Flatten(ss) + FlattenMiniblocks(s.miniblocks)
  {
    hide FlattenMiniblocks;
    assert (ss + [s])[..|ss|] == ss;
  }

  /** A run of full miniblocks has 250 transactions each. */
  lemma {:induction false} FullRun<T>(ms: seq<Miniblock<T>>)
    requires forall i | 0 <= i < |ms| :: |ms[i].transactions| == TX_PER_MINIBLOCK
    ensures |FlattenMiniblocks(ms)| == |ms| * TX_PER_MINIBLOCK
  {
    if ms != [] {
      FullRun(ms[..|ms| - 1]);
    }
  }

  /** The inner loop: fill one subblock from the transactions at `pos` on. */
  method FillSubblock<T>(txs: seq<T>, pos: nat) returns (ms: seq<Miniblock<T>>, next: nat)
    requires pos < |txs|
    ensures pos < next == Min(pos + SUBBLOCK_CAPACITY, |txs|)
    ensures ms != [] && PackedMiniblocks(ms) && FlattenMiniblocks(ms) == txs[pos..next]
  {
    hide FlattenMiniblocks;
    ms, next := [], pos;
    var index := 0;
    NoMiniblocks<T>();
    while next < |txs| && index < MINIBLOCKS_PER_SUBBLOCK
      invariant index == |ms| <= MINIBLOCKS_PER_SUBBLOCK
      invariant next == Min(pos + index * TX_PER_MINIBLOCK, |txs|)
      invariant PackedMiniblocks(ms) && FlattenMiniblocks(ms) == txs[pos..next]
      invariant next < |txs| ==> forall i | 0 <= i < |ms| :: |ms[i].transactions| == TX_PER_MINIBLOCK
      invariant index == 0 ==> next == pos
    {
      var end := Min(next + TX_PER_MINIBLOCK, |txs|);
      var miniblock := Miniblock(index, txs[next..end]);
      FlattenMiniblocksAppend(ms, miniblock);
      assert txs[pos..end] == txs[pos..next] + txs[next..end];
      ms := ms + [miniblock];
      next := end;
      index := index + 1;
    }
  }

  lemma NoMiniblocks<T>()
    ensures FlattenMiniblocks<T>([]) == [] && Flatten<T>([]) == []
  {
  }

  /** `distribute_transactions_to_subblocks`: lossless up to capacity. */
  method Distribute<T>(txs: seq<T>) returns (ss: seq<Subblock<T>>)
    ensures PackedSubblocks(ss)
    ensures Flatten(ss) == txs[..Min(|txs|, 25000)]
    ensures |ss| <= 10 && forall i | 0 <= i < |ss| :: ss[i].index == i && 0 < |ss[i].miniblocks| <= 10
    ensures forall i, j | 0 <= i < |ss| && 0 <= j < |ss[i].miniblocks| ::
      ss[i].miniblocks[j].index == j && 0 < |ss[i].miniblocks[j].transactions| <= 250
    ensures forall i, j | 0 <= i < |ss| && 0 <= j < |ss[i].miniblocks| && !(i == |ss| - 1 && j == |ss[i].miniblocks| - 1) ::
      |ss[i].miniblocks[j].transactions| == 250
    ensures forall i | 0 <= i < |ss| - 1 :: |ss[i].miniblocks| == 10
  {
    hide Flatten, FlattenMiniblocks, PackedMiniblocks;
    ss := [];
    var pos, index := 0, 0;
    NoMiniblocks<T>();
    while pos < |txs| && index < SUBBLOCKS_PER_BLOCK
      invariant index == |ss| <= SUBBLOCKS_PER_BLOCK
      invariant pos == Min(index * SUBBLOCK_CAPACITY, |txs|)
      invariant PackedSubblocks(ss) && Flatten(ss) == txs[..pos]
      invariant pos < |txs| ==> forall i | 0 <= i < |ss| :: |FlattenMiniblocks(ss[i].miniblocks)| == SUBBLOCK_CAPACITY
    {
      var ms, next := FillSubblock(txs, pos);
      var subblock := Subblock(index, ms);
      FlattenAppend(ss, subblock);
      assert txs[..next] == txs[..pos] + txs[pos..next];
      ss := ss + [subblock];
      pos := next;
      index := index + 1;
    }
    ShapeInNumbers(ss);
  }

  /** A full subblock has ten miniblocks of 250 transactions. */
  lemma {:induction false} FullSubblock<T>(ms: seq<Miniblock<T>>)
    requires ms != [] && PackedMiniblocks(ms) && |FlattenMiniblocks(ms)| == 2500
    ensures |ms| == 10 && forall j | 0 <= j < |ms| :: |ms[j].transactions| == 250
  {
    hide FlattenMiniblocks;
    PackedSizes(ms);
  }

  lemma {:induction false} ShapeInNumbers<T>(ss: seq<Subblock<T>>)
    requires PackedSubblocks(ss)
    ensures |ss| <= 10 && forall i | 0 <= i < |ss| :: ss[i].index == i && 0 < |ss[i].miniblocks| <= 10
    ensures forall i, j | 0 <= i < |ss| && 0 <= j < |ss[i].miniblocks| ::
      ss[i].miniblocks[j].index == j && 0 < |ss[i].miniblocks[j].transactions| <= 250
    ensures forall i, j | 0 <= i < |ss| && 0 <= j < |ss[i].miniblocks| && !(i == |ss| - 1 && j == |ss[i].miniblocks| - 1) ::
      |ss[i].miniblocks[j].transactions| == 250
    ensures forall i | 0 <= i < |ss| - 1 :: |ss[i].miniblocks| == 10
  {
    hide FlattenMiniblocks;
    forall i | 0 <= i < |ss| - 1
      ensures |ss[i].miniblocks| == 10 && forall j | 0 <= j < |ss[i].miniblocks| :: |ss[i].miniblocks[j].transactions| == 250
    {
      FullSubblock(ss[i].miniblocks);
    }
  }

  lemma {:induction false} PackedSizes<T>(ms: seq<Miniblock<T>>)
    requires PackedMiniblocks(ms) && ms != []
    ensures |FlattenMiniblocks(ms)| == (|ms| - 1) * TX_PER_MINIBLOCK + |ms[|ms| - 1].transactions|
  {
    var n := |ms| - 1;
    FullRun(ms[..n]);
  }

  /** A packing is determined by its transactions: the shape leaves no freedom. */
  lemma {:induction false} LastTransactions<T>(ms: seq<Miniblock<T>>)
    requires PackedMiniblocks(ms) && ms != []
    ensures var n := |ms| - 1;
            var all := FlattenMiniblocks(ms);
            && n * TX_PER_MINIBLOCK <= |all|
            && FlattenMiniblocks(ms[..n]) == all[..n * TX_PER_MINIBLOCK]
            && ms[n].transactions == all[n * TX_PER_MINIBLOCK..]
  {
    FullRun(ms[..|ms| - 1]);
  }

  lemma {:induction false} MiniblocksDetermined<T>(a: seq<Miniblock<T>>, b: seq<Miniblock<T>>)
    requires PackedMiniblocks(a) && PackedMiniblocks(b)
    requires FlattenMiniblocks(a) == FlattenMiniblocks(b)
    ensures a == b
    decreases |a|
  {
    hide FlattenMiniblocks;
    NoMiniblocks<T>();
    if a == [] || b == [] {
      if a != [] { PackedSizes(a); }
      if b != [] { PackedSizes(b); }
    } else {
      PackedSizes(a);
      PackedSizes(b);
      var n := |a| - 1;
      assert |a| == |b|;
      LastTransactions(a);
      LastTransactions(b);
      MiniblocksDetermined(a[..n], b[..n]);
      assert a == a[..n] + [a[n]] && b == b[..n] + [b[n]];
    }
  }

  lemma {:induction false} FullSubblocks<T>(ss: seq<Subblock<T>>)
    requires forall i | 0 <= i < |ss| :: |FlattenMiniblocks(ss[i].miniblocks)| == SUBBLOCK_CAPACITY
    ensures |Flatten(ss)| == |ss| * SUBBLOCK_CAPACITY
  {
    hide FlattenMiniblocks;
    if ss != [] {
      FullSubblocks(ss[..|ss| - 1]);
    }
  }

  /** A subblock holds at least one transaction and at most 2500. */
  lemma {:induction false} SubblockSize<T>(s: Subblock<T>)
    requires s.miniblocks != [] && PackedMiniblocks(s.miniblocks)
    ensures 0 < |FlattenMiniblocks(s.miniblocks)| <= SUBBLOCK_CAPACITY
  {
    hide FlattenMiniblocks;
    PackedSizes(s.miniblocks);
  }

  lemma {:induction false} LastSubblock<T>(ss: seq<Subblock<T>>)
    requires PackedSubblocks(ss) && ss != []
    ensures var n := |ss| - 1;
            var all := Flatten(ss);
            && n * SUBBLOCK_CAPACITY < |all| <= (n + 1) * SUBBLOCK_CAPACITY
            && Flatten(ss[..n]) == all[..n * SUBBLOCK_CAPACITY]
            && FlattenMiniblocks(ss[n].miniblocks) == all[n * SUBBLOCK_CAPACITY..]
  {
    hide FlattenMiniblocks, PackedMiniblocks;
    var n := |ss| - 1;
    FullSubblocks(ss[..n]);
    SubblockSize(ss[n]);
  }

  lemma NoSubblocks<T>()
    ensures Flatten<T>([]) == []
  {
  }

  /** The packing of a whole block is determined by its transactions. */
  lemma {:induction false} SubblocksDetermined<T>(a: seq<Subblock<T>>, b: seq<Subblock<T>>)
    requires PackedSubblocks(a) && PackedSubblocks(b)
    requires Flatten(a) == Flatten(b)
    ensures a == b
    decreases |a|
  {
    hide Flatten, FlattenMiniblocks, PackedMiniblocks;
    NoSubblocks<T>();
    if a == [] || b == [] {
      if a != [] { LastSubblock(a); }
      if b != [] { LastSubblock(b); }
    } else {
      LastSubblock(a);
      LastSubblock(b);
      SameCount(|a|, |b|, |Flatten(a)|);
      var n := |a| - 1;
      MiniblocksDetermined(a[n].miniblocks, b[n].miniblocks);
      SubblocksDetermined(a[..n], b[..n]);
      assert a == a[..n] + [a[n]] && b == b[..n] + [b[n]];
    }
  }

  lemma SameCount(x: nat, y: nat, total: nat)
    requires x > 0 && y > 0
    requires (x - 1) * SUBBLOCK_CAPACITY < total <= x * SUBBLOCK_CAPACITY
    requires (y - 1) * SUBBLOCK_CAPACITY < total <= y * SUBBLOCK_CAPACITY
    ensures x == y
  {
  }
}
