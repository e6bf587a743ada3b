/**
 A miniblock header binds its body: under a hash without collisions on the byte strings that
 are hashed, no second body passes verification.
 */
module BodyBinding {
  import opened Bytes
  import opened Canonical
  import opened Transactions
  import opened Miniblocks
  import HashMerkle

  // ---------- the byte strings that are hashed ----------

  ghost function NodePreimages(digest: Digest, leaves: seq<Hash>): set<Bytes> {
    set p | p in HashMerkle.Pairs(TaggedNode(digest), leaves) :: NodePreimage(p.0, p.1)
  }

  ghost function TxPreimages(txs: seq<Transaction>): set<Bytes> {
    set i | 0 <= i < |txs| :: TxPreimage(txs[i])
  }

  ghost function ReceiptPreimages(rs: seq<TxReceipt>): set<Bytes> {
    set i | 0 <= i < |rs| :: ReceiptPreimage(rs[i])
  }

  ghost function TxTreePreimages(digest: Digest, txs: seq<Transaction>): set<Bytes> {
    TxPreimages(txs) + NodePreimages(digest, TxLeaves(digest, txs))
  }

  ghost function ReceiptTreePreimages(digest: Digest, rs: seq<TxReceipt>): set<Bytes> {
    ReceiptPreimages(rs) + NodePreimages(digest, ReceiptLeaves(digest, rs))
  }

  ghost function BodyPreimages(digest: Digest, body: MiniblockBody): set<Bytes> {
    TxTreePreimages(digest, body.transactions) + ReceiptTreePreimages(digest, body.receipts)
  }

  ghost predicate NeverZero(digest: Digest, preimages: set<Bytes>) {
    forall x | x in preimages :: digest(x) != ZERO_HASH
  }

  // ---------- leaf encodings are injective ----------

  lemma {:induction false} PartsRecovered(tag: string, a: seq<Bytes>, b: seq<Bytes>)
    requires |a| == |b| && (forall i | 0 <= i < |a| :: |a[i]| == |b[i]|)
    requires PartsPreimage(tag, a) == PartsPreimage(tag, b)
    ensures a == b
  {
    hide Utf8, Terminated;
    var n := |Utf8(tag)| + 1;
    assert PartsPreimage(tag, a)[n..] == Terminated(a);
    assert PartsPreimage(tag, b)[n..] == Terminated(b);
    TerminatedInjective(a, b);
  }

  lemma {:induction false} TxLengths(tx: Transaction)
    ensures |TxPreimage(tx)| == |TAG_TX_LEAF| + 21 + |tx.txHash|
  {
    var parts := TxParts(tx);
    assert Terminated(parts[3..]) == [];
    assert |Terminated(parts[2..])| == 2 by { assert parts[2..][1..] == parts[3..]; }
    assert |Terminated(parts[1..])| == |tx.txHash| + 3 by { assert parts[1..][1..] == parts[2..]; }
    assert |Terminated(parts)| == |tx.txHash| + 20;
  }

  lemma {:induction false} TxPreimageInjective(s: Transaction, t: Transaction)
    requires TxPreimage(s) == TxPreimage(t)
    ensures s.txId == t.txId && s.txHash == t.txHash && TypeId(s.call) == TypeId(t.call)
  {
    TxLengths(s);
    TxLengths(t);
    hide PartsPreimage, TypeId;
    var a, b := TxParts(s), TxParts(t);
    PartsRecovered(TAG_TX_LEAF, a, b);
    assert a[0] == b[0] && a[1] == b[1] && a[2] == b[2];
    assert a[2][0] == b[2][0];
  }

  lemma {:induction false} ReceiptPreimageInjective(r: TxReceipt, s: TxReceipt)
    requires ReceiptPreimage(r) == ReceiptPreimage(s)
    ensures r == s
  {
    hide PartsPreimage, LittleEndian, Pow256;
    var a, b := ReceiptParts(r), ReceiptParts(s);
    PartsRecovered(TAG_RECEIPT_LEAF, a, b);
    assert a[0] == b[0] && a[1] == b[1] && a[2] == b[2] && a[3] == b[3] && a[4] == b[4];
    assert a[3][0] == b[3][0];
    WordSizes();
    WordRecovered(r.txIndex, s.txIndex, 4);
    WordRecovered(r.gasUsed, s.gasUsed, 8);
  }

  // ---------- roots ----------

  lemma {:induction false} NodesCollisionFree(digest: Digest, preimages: set<Bytes>, pairs: set<(Hash, Hash)>)
    requires NoCollision(digest, preimages)
    requires forall p | p in pairs :: NodePreimage(p.0, p.1) in preimages
    ensures HashMerkle.CollisionFree(TaggedNode(digest), pairs)
  {
    hide NodePreimage;
    var node := TaggedNode(digest);
    forall p, q | p in pairs && q in pairs
      ensures node(p.0, p.1) == node(q.0, q.1) ==> p == q
    {
      if node(p.0, p.1) == node(q.0, q.1) {
        NodePreimageInjective(p, q);
      }
    }
  }

  lemma {:induction false} RootBindsLeaves(digest: Digest, preimages: set<Bytes>, a: seq<Hash>, b: seq<Hash>)
    requires NoCollision(digest, preimages)
    requires NodePreimages(digest, a) <= preimages && NodePreimages(digest, b) <= preimages
    requires |a| == |b| && RootOf(digest, a) == RootOf(digest, b)
    ensures a == b
  {
    hide HashMerkle.Pairs, HashMerkle.TreeHash, HashMerkle.Root, NodePreimage, NoCollision;
    var node := TaggedNode(digest);
    HashMerkle.RootIsTreeHash(node, ZERO_HASH, a);
    HashMerkle.RootIsTreeHash(node, ZERO_HASH, b);
    var pairs := HashMerkle.Pairs(node, a) + HashMerkle.Pairs(node, b);
    forall p | p in pairs
      ensures NodePreimage(p.0, p.1) in preimages
    {
      assert NodePreimage(p.0, p.1) in NodePreimages(digest, a) || NodePreimage(p.0, p.1) in NodePreimages(digest, b);
    }
    NodesCollisionFree(digest, preimages, pairs);
    HashMerkle.RootInjective(node, ZERO_HASH, a, b);
  }

  /** A tree over at least one leaf never has the zero hash for its root. */
  lemma {:induction false} RootIsNotZero(digest: Digest, preimages: set<Bytes>, leaves: seq<Hash>)
    requires NeverZero(digest, preimages) && NodePreimages(digest, leaves) <= preimages
    requires |leaves| >= 1 && forall i | 0 <= i < |leaves| :: leaves[i] != ZERO_HASH
    ensures RootOf(digest, leaves) != ZERO_HASH
  {
    hide HashMerkle.Pairs, HashMerkle.TreeHash, NodePreimage;
    var node := TaggedNode(digest);
    HashMerkle.RootIsTreeHash(node, ZERO_HASH, leaves);
    if |leaves| > 1 {
      hide HashMerkle.Root;
      var a, b := HashMerkle.TopPair(node, ZERO_HASH, leaves);
      var p := (HashMerkle.Root(node, ZERO_HASH, a), HashMerkle.Root(node, ZERO_HASH, b));
      assert NodePreimage(p.0, p.1) in NodePreimages(digest, leaves);
    }
  }

  // ---------- binding ----------

  ghost predicate SameTransaction(s: Transaction, t: Transaction) {
    s.txId == t.txId && s.txHash == t.txHash && TypeId(s.call) == TypeId(t.call)
  }

  /** Equal roots bind the leaves of two transaction lists, and with them their number. */
  lemma {:induction false} TxRootBindsLeaves(digest: Digest, preimages: set<Bytes>, a: seq<Transaction>, b: seq<Transaction>)
    requires NoCollision(digest, preimages) && NeverZero(digest, preimages)
    requires TxTreePreimages(digest, a) <= preimages && TxTreePreimages(digest, b) <= preimages
    requires RootOf(digest, TxLeaves(digest, a)) == RootOf(digest, TxLeaves(digest, b))
    ensures TxLeaves(digest, a) == TxLeaves(digest, b)
  {
    hide HashMerkle.Pairs, HashMerkle.TreeHash, HashMerkle.Root, HashMerkle.Separated, NodePreimage, TxPreimage, NoCollision, NeverZero;
    var node := TaggedNode(digest);
    var s, t, leaves := TxLeaves(digest, a), TxLeaves(digest, b), TxLeaves(digest, a + b);
    HashMerkle.RootIsTreeHash(node, ZERO_HASH, s);
    HashMerkle.RootIsTreeHash(node, ZERO_HASH, t);
    var pairs := HashMerkle.Pairs(node, s) + HashMerkle.Pairs(node, t);
    forall p | p in pairs
      ensures NodePreimage(p.0, p.1) in preimages
    {
      assert NodePreimage(p.0, p.1) in NodePreimages(digest, s) || NodePreimage(p.0, p.1) in NodePreimages(digest, t);
    }
    NodesCollisionFree(digest, preimages, pairs);
    assert TxPreimages(a + b) <= TxPreimages(a) + TxPreimages(b);
    TxLeavesSeparated(digest, a + b, preimages, pairs);
    LeavesOfBoth(digest, a, b);
    HashMerkle.RootDeterminesList(node, ZERO_HASH, s, t, leaves, pairs);
  }

  lemma LeavesOfBoth(digest: Digest, a: seq<Transaction>, b: seq<Transaction>)
    ensures forall x | x in TxLeaves(digest, a) || x in TxLeaves(digest, b) :: x in TxLeaves(digest, a + b)
  {
    hide TxPreimage;
    var s, t, leaves := TxLeaves(digest, a), TxLeaves(digest, b), TxLeaves(digest, a + b);
    assert forall i | 0 <= i < |a| :: leaves[i] == s[i];
    assert forall i | 0 <= i < |b| :: leaves[|a| + i] == t[i];
  }

  lemma {:induction false} TransactionsBound(digest: Digest, preimages: set<Bytes>, a: seq<Transaction>, b: seq<Transaction>)
    requires NoCollision(digest, preimages) && NeverZero(digest, preimages)
    requires TxTreePreimages(digest, a) <= preimages && TxTreePreimages(digest, b) <= preimages
    requires RootOf(digest, TxLeaves(digest, a)) == RootOf(digest, TxLeaves(digest, b))
    ensures |a| == |b| && forall i | 0 <= i < |a| :: SameTransaction(a[i], b[i])
  {
    hide RootOf, NodePreimages, TxPreimage, SameTransaction, TypeId, NeverZero;
    TxRootBindsLeaves(digest, preimages, a, b);
    assert |TxLeaves(digest, a)| == |TxLeaves(digest, b)|;
    forall i | 0 <= i < |a|
      ensures SameTransaction(a[i], b[i])
    {
      assert TxPreimage(a[i]) in TxPreimages(a) && TxPreimage(b[i]) in TxPreimages(b);
      assert TxLeaves(digest, a)[i] == TxLeaves(digest, b)[i];
      SameLeafSameTransaction(a[i], b[i]);
    }
  }

  lemma SameLeafSameTransaction(s: Transaction, t: Transaction)
    requires TxPreimage(s) == TxPreimage(t)
    ensures SameTransaction(s, t)
  {
    hide TxPreimage, TypeId;
    TxPreimageInjective(s, t);
  }

  lemma {:induction false} ReceiptsBound(digest: Digest, preimages: set<Bytes>, a: seq<TxReceipt>, b: seq<TxReceipt>)
    requires NoCollision(digest, preimages)
    requires ReceiptTreePreimages(digest, a) <= preimages && ReceiptTreePreimages(digest, b) <= preimages
    requires |a| == |b|
    requires RootOf(digest, ReceiptLeaves(digest, a)) == RootOf(digest, ReceiptLeaves(digest, b))
    ensures a == b
  {
    hide RootOf, NodePreimages, ReceiptPreimage;
    RootBindsLeaves(digest, preimages, ReceiptLeaves(digest, a), ReceiptLeaves(digest, b));
    forall i | 0 <= i < |a|
      ensures a[i] == b[i]
    {
      assert ReceiptPreimage(a[i]) in ReceiptPreimages(a) && ReceiptPreimage(b[i]) in ReceiptPreimages(b);
      assert ReceiptLeaves(digest, a)[i] == ReceiptLeaves(digest, b)[i];
      ReceiptPreimageInjective(a[i], b[i]);
    }
  }

  lemma {:induction false} ReceiptRootIsNotZero(digest: Digest, preimages: set<Bytes>, rs: seq<TxReceipt>)
    requires NeverZero(digest, preimages) && ReceiptTreePreimages(digest, rs) <= preimages && rs != []
    ensures RootOf(digest, ReceiptLeaves(digest, rs)) != ZERO_HASH
  {
    hide RootOf, NodePreimages, ReceiptPreimage;
    var leaves := ReceiptLeaves(digest, rs);
    forall i | 0 <= i < |leaves|
      ensures leaves[i] != ZERO_HASH
    {
      assert ReceiptPreimage(rs[i]) in ReceiptPreimages(rs);
    }
    RootIsNotZero(digest, preimages, leaves);
  }

  /**
   Two bodies verified against one header have equally many transactions and agree on every
   transaction's identity and on every receipt.  The tags make this hold for any number of
   transactions, even where the header's 16-bit count saturates.
   */
  lemma {:induction false} HeaderBindsBody(digest: Digest, header: MiniblockHeader, a: MiniblockBody, b: MiniblockBody)
    requires Verification(digest, header, Some(a)) == Ok(()) && Verification(digest, header, Some(b)) == Ok(())
    requires var preimages := BodyPreimages(digest, a) + BodyPreimages(digest, b);
             NoCollision(digest, preimages) && NeverZero(digest, preimages)
    ensures |a.transactions| == |b.transactions|
    ensures forall i | 0 <= i < |a.transactions| :: SameTransaction(a.transactions[i], b.transactions[i])
    ensures a.receipts == b.receipts
  {
    hide RootOf, TxTreePreimages, ReceiptTreePreimages, NoCollision, NeverZero, SameTransaction, TxLeaves, ReceiptLeaves;
    var preimages := BodyPreimages(digest, a) + BodyPreimages(digest, b);
    TransactionsBound(digest, preimages, a.transactions, b.transactions);
    if a.receipts == [] || b.receipts == [] {
      EmptyReceiptRoot(digest);
      if a.receipts != [] {
        ReceiptRootIsNotZero(digest, preimages, a.receipts);
      }
      if b.receipts != [] {
        ReceiptRootIsNotZero(digest, preimages, b.receipts);
      }
    } else {
      ReceiptsBound(digest, preimages, a.receipts, b.receipts);
    }
  }

  lemma EmptyReceiptRoot(digest: Digest)
    ensures RootOf(digest, ReceiptLeaves(digest, [])) == ZERO_HASH
  {
    EmptyRoot(digest);
  }

  // ---------- inclusion proofs for real transactions ----------

  /**
   For the leaves of a transaction list the separation that the Merkle results ask for is a
   consequence of the domain tags: the generated inclusion proof is accepted against the
   header's root exactly when the number of transactions is a power of two.
   */
  lemma {:induction false} TxProofAcceptedIffPowerOfTwo(digest: Digest, txs: seq<Transaction>, i: nat)
    requires i < |txs|
    requires var leaves := TxLeaves(digest, txs);
             var preimages := TxTreePreimages(digest, txs)
                              + NodePreimages(digest, HashMerkle.Padded(ZERO_HASH, leaves));
             NoCollision(digest, preimages) && NeverZero(digest, preimages)
    ensures var leaves := TxLeaves(digest, txs);
            var proof := HashMerkle.HonestProof(TaggedNode(digest), ZERO_HASH, leaves, i);
            HashMerkle.Climb(TaggedNode(digest), leaves[i], proof.path, proof.directions) == RootOf(digest, leaves)
            <==> exists k: nat :: |txs| == HashMerkle.Pow2(k)
  {
    hide HashMerkle.Pairs, HashMerkle.TreeHash, HashMerkle.Root, HashMerkle.Climb, HashMerkle.HonestProof,
         HashMerkle.Padded, NodePreimage, TxPreimage;
    var node := TaggedNode(digest);
    var leaves := TxLeaves(digest, txs);
    var padded := HashMerkle.Padded(ZERO_HASH, leaves);
    var pairs := HashMerkle.Pairs(node, leaves) + HashMerkle.Pairs(node, padded);
    var preimages := TxTreePreimages(digest, txs) + NodePreimages(digest, padded);
    forall p | p in pairs
      ensures NodePreimage(p.0, p.1) in preimages
    {
      assert NodePreimage(p.0, p.1) in NodePreimages(digest, leaves) || NodePreimage(p.0, p.1) in NodePreimages(digest, padded);
    }
    NodesCollisionFree(digest, preimages, pairs);
    TxLeavesSeparated(digest, txs, preimages, pairs);
    HashMerkle.RootIsTreeHash(node, ZERO_HASH, leaves);
    HashMerkle.ProofAcceptedIffPowerOfTwo(node, ZERO_HASH, leaves, i);
  }

  lemma {:induction false} LeafIsNotNode(tx: Transaction, p: (Hash, Hash))
    ensures TxPreimage(tx) != NodePreimage(p.0, p.1)
  {
    hide Utf8, Terminated, ZeroFree;
    DistinctTags();
    var x, y := Terminated(TxParts(tx)), Terminated([p.0, p.1]);
    assert TAGS[1] == TAG_TX_LEAF && TAGS[4] == TAG_MERKLE_NODE;
    if DataPreimage(TAG_TX_LEAF, x) == DataPreimage(TAG_MERKLE_NODE, y) {
      TagsNeverClash(TAG_TX_LEAF, TAG_MERKLE_NODE, x, y);
    }
  }

  lemma {:induction false} TxLeavesSeparated(digest: Digest, txs: seq<Transaction>, preimages: set<Bytes>, pairs: set<(Hash, Hash)>)
    requires NoCollision(digest, preimages) && NeverZero(digest, preimages)
    requires TxPreimages(txs) <= preimages && forall p | p in pairs :: NodePreimage(p.0, p.1) in preimages
    ensures HashMerkle.Separated(TaggedNode(digest), ZERO_HASH, TxLeaves(digest, txs), pairs)
  {
    hide NodePreimage, TxPreimage;
    var node, leaves := TaggedNode(digest), TxLeaves(digest, txs);
    forall i | 0 <= i < |leaves|
      ensures leaves[i] != ZERO_HASH && forall p | p in pairs :: node(p.0, p.1) != leaves[i]
    {
      assert TxPreimage(txs[i]) in TxPreimages(txs);
      forall p | p in pairs
        ensures node(p.0, p.1) != leaves[i]
      {
        LeafIsNotNode(txs[i], p);
      }
    }
  }

  ghost function ClimbPreimages(digest: Digest, leaf: Hash, path: seq<Hash>, directions: seq<bool>): set<Bytes>
    requires |path| == |directions|
  {
    set p | p in HashMerkle.ClimbPairs(TaggedNode(digest), leaf, path, directions) :: NodePreimage(p.0, p.1)
  }

  /**
   A transaction for which any proof at all, of any length and directions, is accepted against a
   header's root is one of the body's transactions.
   */
  lemma {:induction false} TxProofSound(digest: Digest, txs: seq<Transaction>, tx: Transaction, path: seq<Hash>, directions: seq<bool>)
    requires |path| == |directions|
    requires var leaf := digest(TxPreimage(tx));
             var preimages := TxTreePreimages(digest, txs + [tx]) + NodePreimages(digest, TxLeaves(digest, txs))
                              + ClimbPreimages(digest, leaf, path, directions);
             && NoCollision(digest, preimages) && NeverZero(digest, preimages)
             && HashMerkle.Climb(TaggedNode(digest), leaf, path, directions) == RootOf(digest, TxLeaves(digest, txs))
    ensures exists i :: 0 <= i < |txs| && SameTransaction(tx, txs[i])
  {
    hide HashMerkle.Pairs, HashMerkle.ClimbPairs, HashMerkle.Climb, HashMerkle.TreeHash, HashMerkle.Root, HashMerkle.Separated,
         NodePreimage, TxPreimage, NeverZero, SameTransaction, TypeId;
    var node, leaves, leaf := TaggedNode(digest), TxLeaves(digest, txs), digest(TxPreimage(tx));
    var preimages := TxTreePreimages(digest, txs + [tx]) + NodePreimages(digest, leaves) + ClimbPreimages(digest, leaf, path, directions);
    var pairs := HashMerkle.Pairs(node, leaves) + HashMerkle.ClimbPairs(node, leaf, path, directions);
    forall p | p in pairs
      ensures NodePreimage(p.0, p.1) in preimages
    {
      assert NodePreimage(p.0, p.1) in NodePreimages(digest, leaves)
          || NodePreimage(p.0, p.1) in ClimbPreimages(digest, leaf, path, directions);
    }
    NodesCollisionFree(digest, preimages, pairs);
    TxLeavesSeparated(digest, txs + [tx], preimages, pairs);
    assert TxLeaves(digest, txs + [tx]) == leaves + [leaf];
    HashMerkle.RootIsTreeHash(node, ZERO_HASH, leaves);
    HashMerkle.AcceptedIsMember(node, ZERO_HASH, leaves, leaf, path, directions);
    var i :| 0 <= i < |leaves| && leaves[i] == leaf;
    assert TxPreimage(txs[i]) in TxPreimages(txs + [tx]) by { assert (txs + [tx])[i] == txs[i]; }
    assert TxPreimage(tx) in TxPreimages(txs + [tx]) by { assert (txs + [tx])[|txs|] == tx; }
    SameLeafSameTransaction(tx, txs[i]);
  }

  // ---------- the untagged tree ----------

  ghost function PlainPreimages(digest: Digest, leaves: seq<Hash>): set<Bytes> {
    set p | p in HashMerkle.Pairs(PlainNode(digest), leaves) :: PlainPreimage(p.0, p.1)
  }

  ghost function PlainRoot(digest: Digest, leaves: seq<Hash>): Hash {
    HashMerkle.TreeHash(PlainNode(digest), ZERO_HASH, leaves)
  }

  lemma {:induction false} PlainCollisionFree(digest: Digest, preimages: set<Bytes>, pairs: set<(Hash, Hash)>)
    requires NoCollision(digest, preimages) && forall p | p in pairs :: PlainPreimage(p.0, p.1) in preimages
    ensures HashMerkle.CollisionFree(PlainNode(digest), pairs)
  {
    var node := PlainNode(digest);
    forall p, q | p in pairs && q in pairs
      ensures node(p.0, p.1) == node(q.0, q.1) ==> p == q
    {
      if node(p.0, p.1) == node(q.0, q.1) {
        assert PlainPreimage(p.0, p.1)[..32] == p.0 && PlainPreimage(q.0, q.1)[..32] == q.0;
        assert PlainPreimage(p.0, p.1)[32..] == p.1 && PlainPreimage(q.0, q.1)[32..] == q.1;
      }
    }
  }

  /** Equally long lists of hashes with one untagged root are equal. */
  lemma {:induction false} PlainRootBinds(digest: Digest, a: seq<Hash>, b: seq<Hash>)
    requires |a| == |b| && PlainRoot(digest, a) == PlainRoot(digest, b)
    requires NoCollision(digest, PlainPreimages(digest, a) + PlainPreimages(digest, b))
    ensures a == b
  {
    hide HashMerkle.Pairs, HashMerkle.TreeHash, HashMerkle.Root, NoCollision;
    var node := PlainNode(digest);
    HashMerkle.RootIsTreeHash(node, ZERO_HASH, a);
    HashMerkle.RootIsTreeHash(node, ZERO_HASH, b);
    var pairs := HashMerkle.Pairs(node, a) + HashMerkle.Pairs(node, b);
    var preimages := PlainPreimages(digest, a) + PlainPreimages(digest, b);
    forall p | p in pairs
      ensures PlainPreimage(p.0, p.1) in preimages
    {
      assert PlainPreimage(p.0, p.1) in PlainPreimages(digest, a) || PlainPreimage(p.0, p.1) in PlainPreimages(digest, b);
    }
    PlainCollisionFree(digest, preimages, pairs);
    HashMerkle.RootInjective(node, ZERO_HASH, a, b);
  }

  /**
   For arbitrary hashes the length is not bound: every list shares its root with the list of its
   own next level.  Lists of header hashes never contain such inner nodes.
   */
  lemma {:induction false} PlainRootForgetsLength(digest: Digest, a: seq<Hash>)
    requires |a| >= 2
    ensures var b := HashMerkle.NextLevel(PlainNode(digest), a);
            |b| < |a| && PlainRoot(digest, b) == PlainRoot(digest, a)
  {
    hide HashMerkle.TreeHash;
    var node := PlainNode(digest);
    HashMerkle.RootIsTreeHash(node, ZERO_HASH, a);
    HashMerkle.RootIsTreeHash(node, ZERO_HASH, HashMerkle.NextLevel(node, a));
  }
}
