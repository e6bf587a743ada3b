/**
 The Merkle tree of `hash_merkle.rs`, over an abstract node function, so that the same
 results serve both `merkle_root` and the untagged `calculate_merkle_root` of the block
 hierarchy.

 Collision-freeness is never assumed globally: every theorem asks for it only on the
 finite set of child pairs that the two computations at hand really hash.
 */
module HashMerkle {
  import opened Bytes

  type Node<!T> = (T, T) -> T

  datatype Proof<T> = Proof(path: seq<T>, directions: seq<bool>)

  // ---------- powers of two ----------

  function Pow2(k: nat): (r: nat)
    ensures r >= 1
  {
    if k == 0 then 1 else 2 * Pow2(k - 1)
  }

  /** The number of levels above `n` leaves. */
  function Height(n: nat): nat {
    if n <= 1 then 0 else 1 + Height((n + 1) / 2)
  }

  /** `Pow2(Height(n))` is what `usize::next_power_of_two` returns. */
  lemma {:induction false} HeightIsNextPowerOfTwo(n: nat)
    requires n >= 1
    ensures n <= Pow2(Height(n)) < 2 * n
  {
    if n > 1 {
      var h := Height((n + 1) / 2);
      HeightIsNextPowerOfTwo((n + 1) / 2);
      if h > 0 {
        var q := Pow2(h - 1);
        assert Pow2(h) == 2 * q;
        assert 2 * q < n;
      }
    }
  }

  lemma {:induction false} HeightUnique(n: nat, k: nat)
    requires n <= Pow2(k) && (k > 0 ==> Pow2(k - 1) < n)
    ensures Height(n) == k
  {
    if k > 0 {
      if k > 1 {
        assert Pow2(k - 1) == 2 * Pow2(k - 2);
      }
      HeightUnique((n + 1) / 2, k - 1);
    }
  }

  // ---------- the root, level by level ----------

  /** One level up: adjacent nodes are combined, an odd last node is promoted as it is. */
  function NextLevel<T>(node: Node<T>, level: seq<T>): (next: seq<T>)
    ensures |next| == (|level| + 1) / 2
  {
    if |level| <= 1 then level
    else [node(level[0], level[1])] + NextLevel(node, level[2..])
  }

  lemma {:induction false} NextLevelAt<T>(node: Node<T>, level: seq<T>, i: nat)
    requires 2 * i + 1 < |level|
    ensures NextLevel(node, level)[i] == node(level[2 * i], level[2 * i + 1])
    decreases i
  {
    if i > 0 {
      NextLevelAt(node, level[2..], i - 1);
    }
  }

  function Root<T>(node: Node<T>, zero: T, level: seq<T>): T
    decreases |level|
  {
    if |level| == 0 then zero
    else if |level| == 1 then level[0]
    else Root(node, zero, NextLevel(node, level))
  }

  /**
   The reference definition: split after the largest power of two below the length and
   combine the two halves.
   */
  ghost function TreeHash<T>(node: Node<T>, zero: T, leaves: seq<T>): T
    decreases |leaves|
  {
    if |leaves| == 0 then zero
    else if |leaves| == 1 then leaves[0]
    else
      HeightIsNextPowerOfTwo(|leaves|);
      var left := Pow2(Height(|leaves|) - 1);
      node(TreeHash(node, zero, leaves[..left]), TreeHash(node, zero, leaves[left..]))
  }

  lemma {:induction false} NextLevelSplit<T>(node: Node<T>, a: seq<T>, b: seq<T>)
    requires |a| % 2 == 0
    ensures NextLevel(node, a + b) == NextLevel(node, a) + NextLevel(node, b)
  {
    if a == [] {
      assert a + b == b;
    } else {
      assert (a + b)[2..] == a[2..] + b;
      NextLevelSplit(node, a[2..], b);
    }
  }

  lemma {:induction false} RootSplit<T>(node: Node<T>, zero: T, a: seq<T>, b: seq<T>, j: nat)
    requires |a| == Pow2(j) && 1 <= |b| <= Pow2(j)
    ensures Root(node, zero, a + b) == node(Root(node, zero, a), Root(node, zero, b))
    decreases j
  {
    if j == 0 {
      assert NextLevel(node, a + b) == [node(a[0], b[0])];
    } else {
      NextLevelSplit(node, a, b);
      RootSplit(node, zero, NextLevel(node, a), NextLevel(node, b), j - 1);
      if |b| == 1 {
        assert NextLevel(node, b) == b;
      }
    }
  }

  lemma {:induction false} TreeHashSplit<T>(node: Node<T>, zero: T, leaves: seq<T>) returns (a: seq<T>, b: seq<T>, j: nat)
    requires |leaves| > 1
    ensures leaves == a + b && |a| == Pow2(j) && 1 <= |b| <= Pow2(j)
    ensures TreeHash(node, zero, leaves) == node(TreeHash(node, zero, a), TreeHash(node, zero, b))
  {
    HeightIsNextPowerOfTwo(|leaves|);
    j := Height(|leaves|) - 1;
    a, b := leaves[..Pow2(j)], leaves[Pow2(j)..];
  }

  lemma {:induction false} RootIsTreeHash<T>(node: Node<T>, zero: T, leaves: seq<T>)
    ensures Root(node, zero, leaves) == TreeHash(node, zero, leaves)
    decreases |leaves|
  {
    if |leaves| > 1 {
      var a, b, j := TreeHashSplit(node, zero, leaves);
      hide *;
      RootSplit(node, zero, a, b, j);
      RootIsTreeHash(node, zero, a);
      RootIsTreeHash(node, zero, b);
    }
  }

  /** `merkle_root` (and, with the untagged node function, `calculate_merkle_root`). */
  method MerkleRoot<T>(node: Node<T>, zero: T, leaves: seq<T>) returns (root: T)
    ensures root == TreeHash(node, zero, leaves)
  {
    RootIsTreeHash(node, zero, leaves);
    if |leaves| == 0 {
      return zero;
    }
    if |leaves| == 1 {
      return leaves[0];
    }
    var level := leaves;
    while |level| > 1
      invariant |level| >= 1
      invariant Root(node, zero, level) == Root(node, zero, leaves)
    {
      level := CombineLevel(node, level);
    }
    root := level[0];
  }

  lemma CombineStep<T>(node: Node<T>, level: seq<T>, i: nat)
    requires i < |level|
    ensures NextLevel(node, level[i..])
         == if i + 1 < |level| then [node(level[i], level[i + 1])] + NextLevel(node, level[i + 2..])
            else [level[i]] + NextLevel(node, level[i + 1..])
  {
    if i + 1 < |level| {
      assert level[i..][2..] == level[i + 2..];
    } else {
      assert level[i..] == [level[i]];
    }
  }

  /** The inner loop over `level.chunks(2)`. */
  method CombineLevel<T>(node: Node<T>, level: seq<T>) returns (next: seq<T>)
    ensures next == NextLevel(node, level)
  {
    hide NextLevel;
    next := [];
    var i := 0;
    assert level[0..] == level;
    while i < |level|
      invariant 0 <= i <= |level|
      invariant next + NextLevel(node, level[i..]) == NextLevel(node, level)
    {
      CombineStep(node, level, i);
      var combined := if i + 1 < |level| then node(level[i], level[i + 1]) else level[i];
      next := next + [combined];
      i := if i + 1 < |level| then i + 2 else i + 1;
    }
  }

  // ---------- proofs ----------

  /** The value `verify` arrives at from a leaf. */
  function Climb<T>(node: Node<T>, current: T, path: seq<T>, directions: seq<bool>): T
    requires |path| == |directions|
    decreases |path|
  {
    if path == [] then current
    else
      var up := if directions[0] then node(path[0], current) else node(current, path[0]);
      Climb(node, up, path[1..], directions[1..])
  }

  /** `HashMerkleProof::verify`. */
  method Verify<T(==)>(node: Node<T>, proof: Proof<T>, leaf: T, expectedRoot: T) returns (ok: bool)
    ensures ok <==> |proof.path| == |proof.directions|
                    && Climb(node, leaf, proof.path, proof.directions) == expectedRoot
  {
    if |proof.path| != |proof.directions| {
      return false;
    }
    var current := leaf;
    var i := 0;
    while i < |proof.path|
      invariant 0 <= i <= |proof.path|
      invariant Climb(node, current, proof.path[i..], proof.directions[i..])
             == Climb(node, leaf, proof.path, proof.directions)
    {
      assert proof.path[i..][1..] == proof.path[i + 1..];
      assert proof.directions[i..][1..] == proof.directions[i + 1..];
      current := if proof.directions[i] then node(proof.path[i], current) else node(current, proof.path[i]);
      i := i + 1;
    }
    ok := current == expectedRoot;
  }

  function Sibling(i: nat): nat {
    if i % 2 == 0 then i + 1 else i - 1
  }

  /** The siblings met on the way up from index `i` of a level of `Pow2(k)` nodes. */
  function HonestPath<T>(node: Node<T>, level: seq<T>, i: nat, k: nat): (path: seq<T>)
    requires |level| == Pow2(k) && i < |level|
    ensures |path| == k
    decreases k
  {
    if k == 0 then []
    else [level[Sibling(i)]] + HonestPath(node, NextLevel(node, level), i / 2, k - 1)
  }

  /** The binary digits of `i`, least significant first. */
  function Directions(i: nat, k: nat): (ds: seq<bool>)
    ensures |ds| == k
  {
    if k == 0 then [] else [i % 2 == 1] + Directions(i / 2, k - 1)
  }

  /** The index that directions spell: a right child counts, the lowest level first. */
  function Spelled(ds: seq<bool>): nat {
    if ds == [] then 0 else (if ds[0] then 1 else 0) + 2 * Spelled(ds[1..])
  }

  lemma {:induction false} DirectionsSpellTheIndex(i: nat, k: nat)
    requires i < Pow2(k)
    ensures Spelled(Directions(i, k)) == i
  {
    if k > 0 {
      DirectionsSpellTheIndex(i / 2, k - 1);
      assert Directions(i, k)[1..] == Directions(i / 2, k - 1);
    }
  }

  function Zeros<T>(zero: T, n: nat): (zs: seq<T>)
    ensures |zs| == n && forall i | 0 <= i < n :: zs[i] == zero
  {
    if n == 0 then [] else [zero] + Zeros(zero, n - 1)
  }

  lemma {:induction false} ZerosAppend<T>(zero: T, m: nat, n: nat)
    ensures Zeros(zero, m) + Zeros(zero, n) == Zeros(zero, m + n)
  {
    if m == 0 {
      assert [] + Zeros(zero, n) == Zeros(zero, n);
    } else {
      ZerosAppend(zero, m - 1, n);
    }
  }

  function PadTo<T>(zero: T, leaves: seq<T>, n: nat): seq<T>
    requires |leaves| <= n
  {
    leaves + Zeros(zero, n - |leaves|)
  }

  lemma PadInHalves<T>(zero: T, s: seq<T>, half: nat)
    requires |s| <= half
    ensures PadTo(zero, s, 2 * half) == PadTo(zero, s, half) + Zeros(zero, half)
  {
    ZerosAppend(zero, half - |s|, half);
  }

  /** The list that proofs are generated over: zero-filled up to the next power of two. */
  function Padded<T>(zero: T, leaves: seq<T>): (p: seq<T>)
    requires |leaves| >= 1
    ensures |p| == Pow2(Height(|leaves|)) && leaves <= p
    ensures forall i | |leaves| <= i < |p| :: p[i] == zero
  {
    HeightIsNextPowerOfTwo(|leaves|);
    PadTo(zero, leaves, Pow2(Height(|leaves|)))
  }

  function HonestProof<T>(node: Node<T>, zero: T, leaves: seq<T>, i: nat): Proof<T>
    requires i < |leaves|
  {
    var k := Height(|leaves|);
    Proof(HonestPath(node, Padded(zero, leaves), i, k), Directions(i, k))
  }

  /** `merkle_proof`. */
  method MerkleProof<T>(node: Node<T>, zero: T, leaves: seq<T>, leafIndex: nat)
    returns (r: Option<(T, Proof<T>)>)
    ensures r.None? <==> leafIndex >= |leaves|
    ensures r.Some? ==> r.value == (leaves[leafIndex], HonestProof(node, zero, leaves, leafIndex))
    ensures r.Some? ==>
      Climb(node, r.value.0, r.value.1.path, r.value.1.directions) == TreeHash(node, zero, Padded(zero, leaves))
  {
    if leafIndex >= |leaves| {
      return None;
    }
    ghost var k := Height(|leaves|);
    ghost var all := Padded(zero, leaves);
    HonestProofClimbs(node, zero, all, leafIndex, k);
    RootIsTreeHash(node, zero, all);
    var leaf := leaves[leafIndex];
    if |leaves| == 1 {
      return Some((leaf, Proof([], [])));
    }
    var padded := PadToPowerOfTwo(zero, leaves);
    var proof := ClimbLevels(node, padded, leafIndex, k);
    r := Some((leaf, proof));
  }

  /** The padding loop of `merkle_proof`. */
  method PadToPowerOfTwo<T>(zero: T, leaves: seq<T>) returns (padded: seq<T>)
    requires |leaves| >= 1
    ensures padded == Padded(zero, leaves)
  {
    HeightIsNextPowerOfTwo(|leaves|);
    var nextPow := NextPowerOfTwo(|leaves|);
    padded := leaves;
    while |padded| < nextPow
      invariant |leaves| <= |padded| <= nextPow
      invariant padded == PadTo(zero, leaves, |padded|)
    {
      ZerosAppend(zero, |padded| - |leaves|, 1);
      assert Zeros(zero, 1) == [zero];
      padded := padded + [zero];
    }
  }

  lemma LevelStep<T>(node: Node<T>, level: seq<T>, i: nat, h: nat, path: seq<T>, directions: seq<bool>)
    requires h > 0 && |level| == Pow2(h) && i < |level|
    ensures Sibling(i) < |level| && |NextLevel(node, level)| == Pow2(h - 1) && i / 2 < Pow2(h - 1)
    ensures path + HonestPath(node, level, i, h)
         == path + [level[Sibling(i)]] + HonestPath(node, NextLevel(node, level), i / 2, h - 1)
    ensures directions + Directions(i, h) == directions + [i % 2 == 1] + Directions(i / 2, h - 1)
  {
  }

  lemma OneNodeLeft<T>(node: Node<T>, level: seq<T>, i: nat, h: nat)
    requires |level| == Pow2(h) == 1 && i < |level|
    ensures h == 0 && HonestPath(node, level, i, h) == [] && Directions(i, h) == []
  {
  }

  /** The level loop of `merkle_proof`: `idx`, `level`, `path` and `directions` move together. */
  method ClimbLevels<T>(node: Node<T>, leaves: seq<T>, leafIndex: nat, ghost k: nat) returns (proof: Proof<T>)
    requires |leaves| == Pow2(k) && leafIndex < |leaves|
    ensures proof == Proof(HonestPath(node, leaves, leafIndex, k), Directions(leafIndex, k))
  {
    hide NextLevel, HonestPath, Directions;
    var level := leaves;
    var idx: nat := leafIndex;
    var path, directions := [], [];
    ghost var h: nat := k;
    while |level| > 1
      invariant 0 <= h <= k && |level| == Pow2(h) && idx < |level|
      invariant path + HonestPath(node, level, idx, h) == HonestPath(node, leaves, leafIndex, k)
      invariant directions + Directions(idx, h) == Directions(leafIndex, k)
    {
      ghost var level0, idx0, path0, directions0 := level, idx, path, directions;
      var siblingIdx := if idx % 2 == 0 then idx + 1 else idx - 1;
      if siblingIdx < |level| {
        path := path + [level[siblingIdx]];
        directions := directions + [idx % 2 == 1];
      }
      level := CombineLevel(node, level);
      idx := idx / 2;
      h := h - 1;
      LevelStep(node, level0, idx0, h + 1, path0, directions0);
    }
    OneNodeLeft(node, level, idx, h);
    proof := Proof(path, directions);
  }

  method NextPowerOfTwo(n: nat) returns (p: nat)
    requires n >= 1
    ensures p == Pow2(Height(n))
  {
    p := 1;
    ghost var k := 0;
    while p < n
      invariant p == Pow2(k) && (k > 0 ==> Pow2(k - 1) < n)
      decreases n - p
    {
      p := 2 * p;
      k := k + 1;
    }
    HeightUnique(n, k);
  }

  /** Completeness: the generated proof climbs from its leaf to the root of the padded list. */
  lemma {:induction false} HonestProofClimbs<T>(node: Node<T>, zero: T, level: seq<T>, i: nat, k: nat)
    requires |level| == Pow2(k) && i < |level|
    ensures Climb(node, level[i], HonestPath(node, level, i, k), Directions(i, k)) == Root(node, zero, level)
    decreases k
  {
    if k > 0 {
      HonestProofClimbs(node, zero, NextLevel(node, level), i / 2, k - 1);
      NextLevelAt(node, level, i / 2);
    }
  }

  // ---------- collision-freeness on the pairs that are hashed ----------

  ghost function LevelPairs<T>(level: seq<T>): set<(T, T)> {
    if |level| <= 1 then {} else {(level[0], level[1])} + LevelPairs(level[2..])
  }

  /** Every pair of children combined while computing the root of `level`. */
  ghost function Pairs<T>(node: Node<T>, level: seq<T>): set<(T, T)>
    decreases |level|
  {
    if |level| <= 1 then {} else LevelPairs(level) + Pairs(node, NextLevel(node, level))
  }

  /** Every pair combined while climbing a proof. */
  ghost function ClimbPairs<T>(node: Node<T>, current: T, path: seq<T>, directions: seq<bool>): set<(T, T)>
    requires |path| == |directions|
    decreases |path|
  {
    if path == [] then {}
    else
      var p := if directions[0] then (path[0], current) else (current, path[0]);
      {p} + ClimbPairs(node, node(p.0, p.1), path[1..], directions[1..])
  }

  ghost predicate CollisionFree<T>(node: Node<T>, pairs: set<(T, T)>) {
    forall p, q | p in pairs && q in pairs :: node(p.0, p.1) == node(q.0, q.1) ==> p == q
  }

  lemma NoCollision<T>(node: Node<T>, pairs: set<(T, T)>, p: (T, T), q: (T, T))
    requires CollisionFree(node, pairs) && p in pairs && q in pairs
    ensures node(p.0, p.1) == node(q.0, q.1) ==> p == q
  {
  }

  lemma {:induction false} LevelPairAt<T>(level: seq<T>, i: nat)
    requires 2 * i + 1 < |level|
    ensures (level[2 * i], level[2 * i + 1]) in LevelPairs(level)
    decreases i
  {
    if i > 0 {
      LevelPairAt(level[2..], i - 1);
    }
  }

  lemma {:induction false} LevelPairsSplit<T>(a: seq<T>, b: seq<T>)
    requires |a| % 2 == 0
    ensures LevelPairs(a + b) == LevelPairs(a) + LevelPairs(b)
  {
    if a == [] {
      assert a + b == b;
    } else {
      assert (a + b)[2..] == a[2..] + b;
      LevelPairsSplit(a[2..], b);
    }
  }

  lemma {:induction false} NextLevelInjective<T>(node: Node<T>, a: seq<T>, b: seq<T>)
    requires |a| == |b|
    requires CollisionFree(node, LevelPairs(a) + LevelPairs(b))
    requires NextLevel(node, a) == NextLevel(node, b)
    ensures a == b
  {
    if |a| > 1 {
      var a', b' := NextLevel(node, a), NextLevel(node, b);
      assert a'[0] == b'[0];
      assert a'[1..] == NextLevel(node, a[2..]) && b'[1..] == NextLevel(node, b[2..]);
      NextLevelInjective(node, a[2..], b[2..]);
      assert (a[0], a[1]) == (b[0], b[1]);
      assert a == [a[0], a[1]] + a[2..];
      assert b == [b[0], b[1]] + b[2..];
    }
  }

  lemma {:induction false} PairsSplit<T>(node: Node<T>, zero: T, a: seq<T>, b: seq<T>, j: nat)
    requires |a| == Pow2(j) && 1 <= |b| <= Pow2(j)
    ensures Pairs(node, a + b)
         == Pairs(node, a) + Pairs(node, b) + {(Root(node, zero, a), Root(node, zero, b))}
    decreases j
  {
    if j == 0 {
      var whole := a + b;
      assert NextLevel(node, whole) == [node(a[0], b[0])];
      assert LevelPairs(whole) == {(whole[0], whole[1])};
    } else {
      NextLevelSplit(node, a, b);
      LevelPairsSplit(a, b);
      PairsSplit(node, zero, NextLevel(node, a), NextLevel(node, b), j - 1);
      if |b| == 1 {
        assert NextLevel(node, b) == b;
      }
    }
  }

  /** Both facts about the combination above a full left subtree. */
  lemma {:induction false} Join<T>(node: Node<T>, zero: T, a: seq<T>, b: seq<T>, j: nat)
    requires |a| == Pow2(j) && 1 <= |b| <= Pow2(j)
    ensures Root(node, zero, a + b) == node(Root(node, zero, a), Root(node, zero, b))
    ensures Pairs(node, a) + Pairs(node, b) + {(Root(node, zero, a), Root(node, zero, b))} <= Pairs(node, a + b)
  {
    RootSplit(node, zero, a, b, j);
    PairsSplit(node, zero, a, b, j);
  }

  lemma {:induction false} JoinEqual<T>(node: Node<T>, zero: T, a: seq<T>, b: seq<T>, c: seq<T>, j: nat, pairs: set<(T, T)>)
    requires |a| == Pow2(j) && 1 <= |b| <= Pow2(j) && 1 <= |c| <= Pow2(j)
    requires CollisionFree(node, pairs)
    requires Pairs(node, a + b) <= pairs && Pairs(node, a + c) <= pairs
    ensures Pairs(node, b) <= pairs && Pairs(node, c) <= pairs
    ensures Root(node, zero, a + b) == Root(node, zero, a + c)
       <==> Root(node, zero, b) == Root(node, zero, c)
  {
    hide *;
    Join(node, zero, a, b, j);
    Join(node, zero, a, c, j);
    NoCollision(node, pairs, (Root(node, zero, a), Root(node, zero, b)), (Root(node, zero, a), Root(node, zero, c)));
  }

  /** Equal-length lists with one root are equal. */
  lemma {:induction false} RootInjective<T>(node: Node<T>, zero: T, a: seq<T>, b: seq<T>)
    requires |a| == |b|
    requires CollisionFree(node, Pairs(node, a) + Pairs(node, b))
    requires Root(node, zero, a) == Root(node, zero, b)
    ensures a == b
    decreases |a|
  {
    if |a| > 1 {
      var a', b' := NextLevel(node, a), NextLevel(node, b);
      RootInjective(node, zero, a', b');
      NextLevelInjective(node, a, b);
    }
  }

  /** One level of a proof: the pair it hashes is the pair that the tree hashes. */
  lemma ProofStep<T>(node: Node<T>, leaves: seq<T>, i: nat, p: (T, T), pairs: set<(T, T)>)
    requires i < |leaves| && |leaves| % 2 == 0
    requires CollisionFree(node, pairs) && LevelPairs(leaves) <= pairs && p in pairs
    requires node(p.0, p.1) == NextLevel(node, leaves)[i / 2]
    ensures p == (if i % 2 == 1 then (leaves[Sibling(i)], leaves[i]) else (leaves[i], leaves[Sibling(i)]))
  {
    LevelPairAt(leaves, i / 2);
    NextLevelAt(node, leaves, i / 2);
  }

  /** The definitions of the proof functions, unfolded by one level. */
  lemma {:induction false} ProofUnfolds<T>(node: Node<T>, zero: T, leaves: seq<T>, i: nat, k: nat, leaf: T, path: seq<T>, p: (T, T))
    requires k > 0 && |leaves| == Pow2(k) && i < |leaves| && |path| == k
    requires p == if i % 2 == 1 then (path[0], leaf) else (leaf, path[0])
    ensures |leaves| % 2 == 0
    ensures |NextLevel(node, leaves)| == Pow2(k - 1) && i / 2 < Pow2(k - 1)
    ensures Root(node, zero, leaves) == Root(node, zero, NextLevel(node, leaves))
    ensures Pairs(node, leaves) == LevelPairs(leaves) + Pairs(node, NextLevel(node, leaves))
    ensures Climb(node, leaf, path, Directions(i, k))
         == Climb(node, node(p.0, p.1), path[1..], Directions(i / 2, k - 1))
    ensures ClimbPairs(node, leaf, path, Directions(i, k))
         == {p} + ClimbPairs(node, node(p.0, p.1), path[1..], Directions(i / 2, k - 1))
    ensures Sibling(i) < |leaves|
    ensures HonestPath(node, leaves, i, k)
         == [leaves[Sibling(i)]] + HonestPath(node, NextLevel(node, leaves), i / 2, k - 1)
  {
    hide NextLevel, LevelPairs;
    assert Directions(i, k)[1..] == Directions(i / 2, k - 1);
  }

  lemma ProofAgrees<T>(node: Node<T>, leaves: seq<T>, i: nat, k: nat, path: seq<T>)
    requires k > 0 && |leaves| == Pow2(k) && i < |leaves| && |path| == k
    requires Sibling(i) < |leaves| && path[0] == leaves[Sibling(i)]
    requires |NextLevel(node, leaves)| == Pow2(k - 1) && i / 2 < Pow2(k - 1)
    requires path[1..] == HonestPath(node, NextLevel(node, leaves), i / 2, k - 1)
    ensures path == HonestPath(node, leaves, i, k)
  {
    hide NextLevel;
    assert path == [path[0]] + path[1..];
  }

  lemma {:induction false} ProofSoundOn<T>(node: Node<T>, zero: T, leaves: seq<T>, i: nat, k: nat,
                                           leaf: T, path: seq<T>, pairs: set<(T, T)>)
    requires |leaves| == Pow2(k) && i < |leaves| && |path| == k
    requires CollisionFree(node, pairs)
    requires Pairs(node, leaves) <= pairs && ClimbPairs(node, leaf, path, Directions(i, k)) <= pairs
    requires Climb(node, leaf, path, Directions(i, k)) == Root(node, zero, leaves)
    ensures leaf == leaves[i]
    ensures path == HonestPath(node, leaves, i, k)
    decreases k
  {
    hide NextLevel, LevelPairs, CollisionFree;
    if k > 0 {
      var p := if i % 2 == 1 then (path[0], leaf) else (leaf, path[0]);
      ProofUnfolds(node, zero, leaves, i, k, leaf, path, p);
      ProofSoundOn(node, zero, NextLevel(node, leaves), i / 2, k - 1, node(p.0, p.1), path[1..], pairs);
      ProofStep(node, leaves, i, p, pairs);
      ProofAgrees(node, leaves, i, k, path);
    }
  }

  /**
   Soundness: a proof whose directions spell `i`, accepted against the root of `Pow2(k)`
   leaves, is the honest proof for leaf `i`.
   */
  lemma {:induction false} ProofSound<T>(node: Node<T>, zero: T, leaves: seq<T>, i: nat, k: nat, leaf: T, path: seq<T>)
    requires |leaves| == Pow2(k) && i < |leaves| && |path| == k
    requires CollisionFree(node, Pairs(node, leaves) + ClimbPairs(node, leaf, path, Directions(i, k)))
    requires Climb(node, leaf, path, Directions(i, k)) == Root(node, zero, leaves)
    ensures leaf == leaves[i]
    ensures path == HonestPath(node, leaves, i, k)
  {
    ProofSoundOn(node, zero, leaves, i, k, leaf, path,
                 Pairs(node, leaves) + ClimbPairs(node, leaf, path, Directions(i, k)));
  }

  // ---------- when does the generated proof check against `merkle_root`? ----------

  /** Leaves and the zero filler are never outputs of the node function on the given pairs. */
  ghost predicate Separated<T>(node: Node<T>, zero: T, leaves: seq<T>, pairs: set<(T, T)>) {
    && zero !in leaves
    && forall p | p in pairs :: node(p.0, p.1) != zero && node(p.0, p.1) !in leaves
  }

  /** Root of a full subtree of filler. */
  ghost function ZeroRoot<T>(node: Node<T>, zero: T, k: nat): T {
    if k == 0 then zero else node(ZeroRoot(node, zero, k - 1), ZeroRoot(node, zero, k - 1))
  }

  lemma {:induction false} ZerosRoot<T>(node: Node<T>, zero: T, k: nat)
    ensures Root(node, zero, Zeros(zero, Pow2(k))) == ZeroRoot(node, zero, k)
    ensures forall j | 0 <= j < k ::
      (ZeroRoot(node, zero, j), ZeroRoot(node, zero, j)) in Pairs(node, Zeros(zero, Pow2(k)))
  {
    if k > 0 {
      var half := Zeros(zero, Pow2(k - 1));
      ZerosRoot(node, zero, k - 1);
      ZerosAppend(zero, Pow2(k - 1), Pow2(k - 1));
      RootSplit(node, zero, half, half, k - 1);
      PairsSplit(node, zero, half, half, k - 1);
    }
  }

  /** The last combination above at least two leaves. */
  lemma {:induction false} TopPair<T>(node: Node<T>, zero: T, s: seq<T>) returns (a: seq<T>, b: seq<T>)
    requires |s| > 1
    ensures s == a + b && |a| >= 1 && |b| >= 1
    ensures Root(node, zero, s) == node(Root(node, zero, a), Root(node, zero, b))
    ensures (Root(node, zero, a), Root(node, zero, b)) in Pairs(node, s)
    ensures Pairs(node, a) + Pairs(node, b) <= Pairs(node, s)
  {
    HeightIsNextPowerOfTwo(|s|);
    var j := Height(|s|) - 1;
    a, b := s[..Pow2(j)], s[Pow2(j)..];
    assert a + b == s;
    Join(node, zero, a, b, j);
  }

  /** With leaves that no node can equal, a root determines the whole list, its length included. */
  lemma {:induction false} RootDeterminesList<T>(node: Node<T>, zero: T, s: seq<T>, t: seq<T>,
                                                 leaves: seq<T>, pairs: set<(T, T)>)
    requires forall x | x in s || x in t :: x in leaves
    requires Separated(node, zero, leaves, pairs) && CollisionFree(node, pairs)
    requires Pairs(node, s) <= pairs && Pairs(node, t) <= pairs
    requires Root(node, zero, s) == Root(node, zero, t)
    ensures s == t
    decreases |s|
  {
    hide CollisionFree, Pairs;
    if |s| > 1 {
      var a, b := TopPair(node, zero, s);
      SplitAgain(node, zero, t, leaves, pairs, (Root(node, zero, a), Root(node, zero, b)));
      var c, d := TopPair(node, zero, t);
      hide Root;
      NoCollision(node, pairs, (Root(node, zero, a), Root(node, zero, b)), (Root(node, zero, c), Root(node, zero, d)));
      RootDeterminesList(node, zero, a, c, leaves, pairs);
      RootDeterminesList(node, zero, b, d, leaves, pairs);
    } else if |t| > 1 {
      var c, d := TopPair(node, zero, t);
      var p := (Root(node, zero, c), Root(node, zero, d));
      SplitAgain(node, zero, s, leaves, pairs, p);
    }
  }

  /** Only a list of at least two leaves has a node for its root. */
  lemma {:induction false} SplitAgain<T>(node: Node<T>, zero: T, t: seq<T>, leaves: seq<T>, pairs: set<(T, T)>, p: (T, T))
    requires (forall x | x in t :: x in leaves) && Separated(node, zero, leaves, pairs)
    requires p in pairs && Root(node, zero, t) == node(p.0, p.1)
    ensures |t| > 1
  {
  }

  /** The last step of a climb. */
  lemma {:induction false} ClimbLast<T>(node: Node<T>, current: T, path: seq<T>, directions: seq<bool>) returns (p: (T, T))
    requires |path| == |directions| > 0
    ensures var n := |path| - 1;
            var below := Climb(node, current, path[..n], directions[..n]);
            && p == (if directions[n] then (path[n], below) else (below, path[n]))
            && Climb(node, current, path, directions) == node(p.0, p.1)
            && ClimbPairs(node, current, path, directions) == ClimbPairs(node, current, path[..n], directions[..n]) + {p}
    decreases |path|
  {
    var n := |path| - 1;
    if n == 0 {
      assert path[..0] == [] && directions[..0] == [] && path[1..] == [] && directions[1..] == [];
      p := if directions[0] then (path[0], current) else (current, path[0]);
    } else {
      var q := if directions[0] then (path[0], current) else (current, path[0]);
      p := ClimbLast(node, node(q.0, q.1), path[1..], directions[1..]);
      assert path[1..][..n - 1] == path[..n][1..] && directions[1..][..n - 1] == directions[..n][1..];
    }
  }

  /** Climbing from a genuine leaf to the root of a subtree starts at one of its leaves. */
  lemma {:induction false} ClimbStartsInside<T>(node: Node<T>, zero: T, s: seq<T>, leaf: T, path: seq<T>, directions: seq<bool>,
                                                leaves: seq<T>, pairs: set<(T, T)>)
    requires |path| == |directions| && leaf in leaves && forall x | x in s :: x in leaves
    requires Separated(node, zero, leaves, pairs) && CollisionFree(node, pairs)
    requires Pairs(node, s) <= pairs && ClimbPairs(node, leaf, path, directions) <= pairs
    requires Climb(node, leaf, path, directions) == Root(node, zero, s)
    ensures leaf in s
    decreases |path|
  {
    hide Pairs, CollisionFree;
    if path != [] {
      var n := |path| - 1;
      var p := ClimbLast(node, leaf, path, directions);
      hide Climb, ClimbPairs;
      SplitAgain(node, zero, s, leaves, pairs, p);
      var a, b := TopPair(node, zero, s);
      hide Root;
      NoCollision(node, pairs, p, (Root(node, zero, a), Root(node, zero, b)));
      ClimbStartsInside(node, zero, if directions[n] then b else a, leaf, path[..n], directions[..n], leaves, pairs);
    } else if |s| > 1 {
      var a, b := TopPair(node, zero, s);
    }
  }

  /**
   Soundness for every list and every proof: a genuine leaf, one that no node can equal, is
   accepted only if it is in the list, whatever the path and directions.
   */
  lemma {:induction false} AcceptedIsMember<T>(node: Node<T>, zero: T, leaves: seq<T>, leaf: T, path: seq<T>, directions: seq<bool>)
    requires |path| == |directions|
    requires var pairs := Pairs(node, leaves) + ClimbPairs(node, leaf, path, directions);
             Separated(node, zero, leaves + [leaf], pairs) && CollisionFree(node, pairs)
    requires Climb(node, leaf, path, directions) == Root(node, zero, leaves)
    ensures leaf in leaves
  {
    hide *;
    var pairs := Pairs(node, leaves) + ClimbPairs(node, leaf, path, directions);
    assert (leaves + [leaf])[|leaves|] == leaf;
    ClimbStartsInside(node, zero, leaves, leaf, path, directions, leaves + [leaf], pairs);
  }

  /** A tree over real leaves never looks like a tree of filler. */
  lemma {:induction false} RealRootIsNotFiller<T>(node: Node<T>, zero: T, s: seq<T>, k: nat,
                                                  leaves: seq<T>, pairs: set<(T, T)>)
    requires |s| >= 1 && (forall x | x in s :: x in leaves)
    requires Separated(node, zero, leaves, pairs) && CollisionFree(node, pairs)
    requires Pairs(node, s) <= pairs
    requires forall j | 0 <= j < k :: (ZeroRoot(node, zero, j), ZeroRoot(node, zero, j)) in pairs
    ensures Root(node, zero, s) != ZeroRoot(node, zero, k)
    decreases k
  {
    if |s| == 1 {
      assert s[0] in leaves;
      if k > 0 {
        var z := ZeroRoot(node, zero, k - 1);
        assert (z, z) in pairs;
      }
    } else {
      var a, b := TopPair(node, zero, s);
      var p := (Root(node, zero, a), Root(node, zero, b));
      assert p in pairs;
      if k > 0 {
        var z := ZeroRoot(node, zero, k - 1);
        assert (z, z) in pairs;
        RealRootIsNotFiller(node, zero, b, k - 1, leaves, pairs);
      }
    }
  }

  /** When more than half of the padded list is real, padding touches only the right subtree. */
  lemma PadTail<T>(zero: T, s: seq<T>, half: nat)
    requires half < |s| <= 2 * half
    ensures PadTo(zero, s, 2 * half) == s[..half] + PadTo(zero, s[half..], half)
    ensures s == s[..half] + s[half..]
  {
  }

  lemma {:induction false} PaddingMovesTheRoot<T>(node: Node<T>, zero: T, s: seq<T>, k: nat,
                                                  leaves: seq<T>, pairs: set<(T, T)>)
    requires 1 <= |s| <= Pow2(k) && (forall x | x in s :: x in leaves)
    requires Separated(node, zero, leaves, pairs) && CollisionFree(node, pairs)
    requires Pairs(node, s) <= pairs && Pairs(node, PadTo(zero, s, Pow2(k))) <= pairs
    ensures Root(node, zero, s) == Root(node, zero, PadTo(zero, s, Pow2(k))) <==> |s| == Pow2(k)
    decreases k
  {
    hide Root, Pairs, CollisionFree, Separated;
    if k == 0 {
      assert PadTo(zero, s, 1) == s;
      return;
    }
    if |s| <= Pow2(k - 1) {
      PaddedHalfMovesTheRoot(node, zero, s, k, leaves, pairs);
      return;
    }
    var half := Pow2(k - 1);
    var a, b := s[..half], s[half..];
    var tail := PadTo(zero, b, half);
    PadTail(zero, s, half);
    assert |tail| == half;
    JoinEqual(node, zero, a, b, tail, k - 1, pairs);
    PaddingMovesTheRoot(node, zero, b, k - 1, leaves, pairs);
  }

  /** When at most half of the padded list is real, its top pair has a filler right child. */
  lemma PaddedHalf<T>(node: Node<T>, zero: T, s: seq<T>, k: nat) returns (left: T)
    requires k > 0 && |s| <= Pow2(k - 1)
    ensures var padded := PadTo(zero, s, Pow2(k));
            && Root(node, zero, padded) == node(left, ZeroRoot(node, zero, k - 1))
            && (left, ZeroRoot(node, zero, k - 1)) in Pairs(node, padded)
            && forall j | 0 <= j < k - 1 ::
                 (ZeroRoot(node, zero, j), ZeroRoot(node, zero, j)) in Pairs(node, padded)
  {
    var half := Pow2(k - 1);
    var a, b := PadTo(zero, s, half), Zeros(zero, half);
    PadInHalves(zero, s, half);
    RootSplit(node, zero, a, b, k - 1);
    PairsSplit(node, zero, a, b, k - 1);
    ZerosRoot(node, zero, k - 1);
    left := Root(node, zero, a);
  }

  lemma PaddedHalfMovesTheRoot<T>(node: Node<T>, zero: T, s: seq<T>, k: nat,
                                  leaves: seq<T>, pairs: set<(T, T)>)
    requires k > 0 && 1 <= |s| <= Pow2(k - 1) && (forall x | x in s :: x in leaves)
    requires Separated(node, zero, leaves, pairs) && CollisionFree(node, pairs)
    requires Pairs(node, s) <= pairs && Pairs(node, PadTo(zero, s, Pow2(k))) <= pairs
    ensures Root(node, zero, s) != Root(node, zero, PadTo(zero, s, Pow2(k)))
  {
    hide Pairs, PadTo, CollisionFree;
    var left := PaddedHalf(node, zero, s, k);
    var top := (left, ZeroRoot(node, zero, k - 1));
    assert top in pairs;
    if |s| == 1 {
      assert s[0] in leaves;
    } else {
      var c, d := TopPair(node, zero, s);
      var p := (Root(node, zero, c), Root(node, zero, d));
      assert p in pairs;
      NoCollision(node, pairs, p, top);
      RealRootIsNotFiller(node, zero, d, k - 1, leaves, pairs);
    }
  }

  /**
   `merkle_root` promotes an odd node while `merkle_proof` pads with zeros.  The generated
   proof is accepted against `merkle_root` exactly when the number of leaves is a power of two.
   */
  lemma {:induction false} ProofAcceptedIffPowerOfTwo<T>(node: Node<T>, zero: T, leaves: seq<T>, i: nat)
    requires i < |leaves|
    requires var pairs := Pairs(node, leaves) + Pairs(node, Padded(zero, leaves));
             Separated(node, zero, leaves, pairs) && CollisionFree(node, pairs)
    ensures var proof := HonestProof(node, zero, leaves, i);
            Climb(node, leaves[i], proof.path, proof.directions) == Root(node, zero, leaves)
            <==> exists k: nat :: |leaves| == Pow2(k)
  {
    var k := Height(|leaves|);
    HonestProofClimbs(node, zero, Padded(zero, leaves), i, k);
    PaddingMovesTheRoot(node, zero, leaves, k, leaves, Pairs(node, leaves) + Pairs(node, Padded(zero, leaves)));
    forall j: nat | |leaves| == Pow2(j)
      ensures |leaves| == Pow2(k)
    {
      HeightUnique(|leaves|, j);
    }
  }

  /** Without any hypothesis on separation: three leaves, where the gap first shows. */
  lemma ThreeLeafGap<T>(node: Node<T>, zero: T, a: T, b: T, c: T, i: nat)
    requires i < 3
    requires CollisionFree(node, {(node(a, b), c), (node(a, b), node(c, zero))})
    ensures var proof := HonestProof(node, zero, [a, b, c], i);
            Climb(node, [a, b, c][i], proof.path, proof.directions) == Root(node, zero, [a, b, c])
            <==> c == node(c, zero)
  {
    var leaves := [a, b, c];
    HeightUnique(3, 2);
    var padded := Padded(zero, leaves);
    assert padded == [a, b] + [c, zero];
    HonestProofClimbs(node, zero, padded, i, 2);
    RootSplit(node, zero, [a, b], [c, zero], 1);
    RootSplit(node, zero, [a], [b], 0);
    RootSplit(node, zero, [c], [zero], 0);
    RootSplit(node, zero, [a, b], [c], 1);
    assert leaves == [a, b] + [c];
    assert [a] + [b] == [a, b] && [c] + [zero] == [c, zero];
    var p, q := (node(a, b), c), (node(a, b), node(c, zero));
    assert node(p.0, p.1) == node(q.0, q.1) ==> p == q;
  }
}
