/**
 A subblock's root binds its miniblocks: the number of them, every header field, and through the
 headers every transaction and receipt.
 */
module SubblockRoots {
  import opened Bytes
  import opened Canonical
  import opened Transactions
  import opened Miniblocks
  import opened BodyBinding
  import opened HeaderEncoding
  import opened Subblocks
  import HashMerkle

  ghost function HeaderPreimages(hs: seq<MiniblockHeader>): set<Bytes> {
    set i | 0 <= i < |hs| :: HeaderPreimage(hs[i])
  }

  /** Every byte string hashed on the way to the root. */
  ghost function RootPreimages(digest: Digest, hs: seq<MiniblockHeader>): set<Bytes> {
    HeaderPreimages(hs) + PlainPreimages(digest, HeaderHashes(digest, hs))
  }

  lemma {:induction false} HeaderHashesSeparated(digest: Digest, hs: seq<MiniblockHeader>, preimages: set<Bytes>, pairs: set<(Hash, Hash)>)
    requires NoCollision(digest, preimages) && NeverZero(digest, preimages)
    requires HeaderPreimages(hs) <= preimages && forall p | p in pairs :: PlainPreimage(p.0, p.1) in preimages
    ensures HashMerkle.Separated(PlainNode(digest), ZERO_HASH, HeaderHashes(digest, hs), pairs)
  {
    hide PlainPreimage, HeaderPreimage;
    var node, leaves := PlainNode(digest), HeaderHashes(digest, hs);
    forall i | 0 <= i < |leaves|
      ensures leaves[i] != ZERO_HASH && forall p | p in pairs :: node(p.0, p.1) != leaves[i]
    {
      assert HeaderPreimage(hs[i]) in HeaderPreimages(hs);
      forall p | p in pairs
        ensures node(p.0, p.1) != leaves[i]
      {
        HeaderIsNotNode(hs[i], p.0, p.1);
      }
    }
  }

  lemma HashesOfBoth(digest: Digest, a: seq<MiniblockHeader>, b: seq<MiniblockHeader>)
    ensures forall x | x in HeaderHashes(digest, a) || x in HeaderHashes(digest, b) :: x in HeaderHashes(digest, a + b)
  {
    hide HeaderHash;
    var s, t, leaves := HeaderHashes(digest, a), HeaderHashes(digest, b), HeaderHashes(digest, a + b);
    assert forall i | 0 <= i < |a| :: leaves[i] == s[i];
    assert forall i | 0 <= i < |b| :: leaves[|a| + i] == t[i];
  }

  /** Equal roots mean equal lists of header hashes, whatever their lengths. */
  lemma {:induction false} RootBindsHashes(digest: Digest, a: seq<MiniblockHeader>, b: seq<MiniblockHeader>, preimages: set<Bytes>)
    requires NoCollision(digest, preimages) && NeverZero(digest, preimages)
    requires RootPreimages(digest, a) <= preimages && RootPreimages(digest, b) <= preimages
    requires SubblockRoot(digest, a) == SubblockRoot(digest, b)
    ensures HeaderHashes(digest, a) == HeaderHashes(digest, b)
  {
    hide HashMerkle.Pairs, HashMerkle.TreeHash, HashMerkle.Root, HashMerkle.Separated, PlainPreimage, HeaderPreimage,
         NoCollision, NeverZero;
    var node := PlainNode(digest);
    var s, t, leaves := HeaderHashes(digest, a), HeaderHashes(digest, b), HeaderHashes(digest, a + b);
    HashMerkle.RootIsTreeHash(node, ZERO_HASH, s);
    HashMerkle.RootIsTreeHash(node, ZERO_HASH, t);
    var pairs := HashMerkle.Pairs(node, s) + HashMerkle.Pairs(node, t);
    forall p | p in pairs
      ensures PlainPreimage(p.0, p.1) in preimages
    {
      assert PlainPreimage(p.0, p.1) in PlainPreimages(digest, s) || PlainPreimage(p.0, p.1) in PlainPreimages(digest, t);
    }
    PlainCollisionFree(digest, preimages, pairs);
    assert HeaderPreimages(a + b) <= HeaderPreimages(a) + HeaderPreimages(b);
    HeaderHashesSeparated(digest, a + b, preimages, pairs);
    HashesOfBoth(digest, a, b);
    HashMerkle.RootDeterminesList(node, ZERO_HASH, s, t, leaves, pairs);
  }

  /** A subblock's root determines the number of its miniblocks and every field of every header. */
  lemma {:induction false} SubblockRootBindsHeaders(digest: Digest, a: seq<MiniblockHeader>, b: seq<MiniblockHeader>, preimages: set<Bytes>)
    requires NoCollision(digest, preimages) && NeverZero(digest, preimages)
    requires RootPreimages(digest, a) <= preimages && RootPreimages(digest, b) <= preimages
    requires SubblockRoot(digest, a) == SubblockRoot(digest, b)
    ensures a == b
  {
    hide SubblockRoot, PlainPreimages, HeaderPreimage, NeverZero;
    RootBindsHashes(digest, a, b, preimages);
    assert |HeaderHashes(digest, a)| == |HeaderHashes(digest, b)|;
    forall i | 0 <= i < |a|
      ensures a[i] == b[i]
    {
      assert HeaderPreimage(a[i]) in HeaderPreimages(a) && HeaderPreimage(b[i]) in HeaderPreimages(b);
      assert HeaderHashes(digest, a)[i] == HeaderHashes(digest, b)[i];
      HeaderPreimageInjective(a[i], b[i]);
    }
  }

  /** The body is there and matches its header. */
  ghost predicate Checked(digest: Digest, slot: Slot, preimages: set<Bytes>) {
    slot.body.Some? && Verification(digest, slot.header, slot.body) == Ok(()) && BodyPreimages(digest, slot.body.value) <= preimages
  }

  ghost predicate SameContents(a: MiniblockBody, b: MiniblockBody) {
    && |a.transactions| == |b.transactions|
    && (forall i | 0 <= i < |a.transactions| :: SameTransaction(a.transactions[i], b.transactions[i]))
    && a.receipts == b.receipts
  }

  lemma FewerPreimages(digest: Digest, preimages: set<Bytes>, fewer: set<Bytes>)
    requires NoCollision(digest, preimages) && NeverZero(digest, preimages) && fewer <= preimages
    ensures NoCollision(digest, fewer) && NeverZero(digest, fewer)
  {
  }

  /** Two subblocks with one root, whose bodies match their headers, hold the same transactions and receipts throughout. */
  lemma {:induction false} SubblockRootBindsContents(digest: Digest, a: seq<Slot>, b: seq<Slot>, preimages: set<Bytes>)
    requires NoCollision(digest, preimages) && NeverZero(digest, preimages)
    requires RootPreimages(digest, Headers(a)) <= preimages && RootPreimages(digest, Headers(b)) <= preimages
    requires (forall s | s in a :: Checked(digest, s, preimages)) && (forall s | s in b :: Checked(digest, s, preimages))
    requires SubblockRoot(digest, Headers(a)) == SubblockRoot(digest, Headers(b))
    ensures |a| == |b|
    ensures forall i | 0 <= i < |a| ::
      a[i].header == b[i].header && a[i].body.Some? && b[i].body.Some? && SameContents(a[i].body.value, b[i].body.value)
  {
    hide SubblockRoot, RootPreimages, NoCollision, NeverZero, Verification, BodyPreimages;
    SubblockRootBindsHeaders(digest, Headers(a), Headers(b), preimages);
    assert |Headers(a)| == |Headers(b)|;
    forall i | 0 <= i < |a|
      ensures a[i].header == b[i].header && a[i].body.Some? && b[i].body.Some? && SameContents(a[i].body.value, b[i].body.value)
    {
      assert Headers(a)[i] == Headers(b)[i];
      assert Checked(digest, a[i], preimages) && Checked(digest, b[i], preimages);
      var x, y := a[i].body.value, b[i].body.value;
      FewerPreimages(digest, preimages, BodyPreimages(digest, x) + BodyPreimages(digest, y));
      HeaderBindsBody(digest, a[i].header, x, y);
    }
  }
}
