/**
 Domain-separated hashing (`canonical.rs`): the byte string that is fed to the hasher, followed
 by a digest function that stays a parameter.
 */
module Canonical {
  import opened Bytes

  const ZERO_HASH: Hash :=
    [0, 0, 0, 0, 0, 0, 0, 0, 0, 0, 0, 0, 0, 0, 0, 0, 0, 0, 0, 0, 0, 0, 0, 0, 0, 0, 0, 0, 0, 0, 0, 0]

  type Hash = h: Bytes | |h| == 32
    witness [0, 0, 0, 0, 0, 0, 0, 0, 0, 0, 0, 0, 0, 0, 0, 0, 0, 0, 0, 0, 0, 0, 0, 0, 0, 0, 0, 0, 0, 0, 0, 0]

  /** The hash function (blake3), as an arbitrary total function to 32 bytes. */
  type Digest = Bytes -> Hash

  const TAG_MINIBLOCK_HEADER: string := "dchat/miniblock/header_hash/v1"
  const TAG_TX_LEAF: string := "dchat/miniblock/tx_leaf/v1"
  const TAG_TX: string := "dchat/tx/v1"
  const TAG_RECEIPT_LEAF: string := "dchat/miniblock/receipt_leaf/v1"
  const TAG_MERKLE_NODE: string := "dchat/merkle/node/v1"
  const TAG_DA_CHUNK_LEAF: string := "dchat/da/chunk_leaf/v1"
  const TAG_DA_SHARD_LEAF: string := "dchat/da/shard_leaf/v1"
  const TAG_ERROR: string := "dchat/error/v1"

  const TAGS: seq<string> := [
    TAG_MINIBLOCK_HEADER, TAG_TX_LEAF, TAG_TX, TAG_RECEIPT_LEAF,
    TAG_MERKLE_NODE, TAG_DA_CHUNK_LEAF, TAG_DA_SHARD_LEAF, TAG_ERROR
  ]

  /** The UTF-8 bytes of a text whose characters are ASCII, as all tags and messages here are. */
  function Utf8(s: string): (b: Bytes)
    ensures |b| == |s|
    ensures forall i | 0 <= i < |s| :: b[i] == s[i] as int % 256
  {
    seq(|s|, i requires 0 <= i < |s| => s[i] as int % 256)
  }

  /** Every part is followed by a zero byte. */
  function Terminated(parts: seq<Bytes>): Bytes {
    if parts == [] then [] else parts[0] + [0] + Terminated(parts[1..])
  }

  /** What `domain_hash_parts` feeds to the hasher. */
  function PartsPreimage(tag: string, parts: seq<Bytes>): Bytes {
    Utf8(tag) + [0] + Terminated(parts)
  }

  function DomainHashParts(digest: Digest, tag: string, parts: seq<Bytes>): Hash {
    digest(PartsPreimage(tag, parts))
  }

  /** What `domain_hash` feeds to the hasher. */
  function DataPreimage(tag: string, data: Bytes): Bytes {
    Utf8(tag) + [0] + data
  }

  ghost predicate ZeroFree(tag: string) {
    forall i | 0 <= i < |tag| :: 0 < tag[i] as int < 256
  }

  /** The first zero byte ends the tag, so what follows can never be mistaken for part of it. */
  lemma {:induction false} TagsNeverClash(s: string, t: string, x: Bytes, y: Bytes)
    requires ZeroFree(s) && ZeroFree(t)
    requires DataPreimage(s, x) == DataPreimage(t, y)
    ensures s == t && x == y
  {
    var p, q := DataPreimage(s, x), DataPreimage(t, y);
    assert p[|s|] == 0 && q[|t|] == 0;
    assert forall i | 0 <= i < |s| :: p[i] == s[i] as int;
    assert forall i | 0 <= i < |t| :: q[i] == t[i] as int;
    assert |s| == |t|;
    forall i | 0 <= i < |s|
      ensures s[i] == t[i]
    {
      assert p[i] == s[i] as int % 256 && q[i] == t[i] as int % 256;
    }
    assert x == p[|s| + 1..] && y == q[|t| + 1..];
  }

  lemma DistinctTags()
    ensures forall i | 0 <= i < |TAGS| :: ZeroFree(TAGS[i])
    ensures forall i, j | 0 <= i < j < |TAGS| :: TAGS[i] != TAGS[j]
  {
    TagsAreZeroFree();
    hide ZeroFree;
    assert TAG_DA_CHUNK_LEAF[9] != TAG_DA_SHARD_LEAF[9];
  }

  lemma TagsAreZeroFree()
    ensures forall i | 0 <= i < |TAGS| :: ZeroFree(TAGS[i])
  {
    BlockTagsAreZeroFree();
    TreeTagsAreZeroFree();
    OtherTagsAreZeroFree();
    hide ZeroFree;
  }

  lemma BlockTagsAreZeroFree()
    ensures ZeroFree(TAG_MINIBLOCK_HEADER) && ZeroFree(TAG_TX_LEAF) && ZeroFree(TAG_RECEIPT_LEAF)
  {
  }

  lemma TreeTagsAreZeroFree()
    ensures ZeroFree(TAG_MERKLE_NODE) && ZeroFree(TAG_DA_CHUNK_LEAF) && ZeroFree(TAG_DA_SHARD_LEAF)
  {
  }

  lemma OtherTagsAreZeroFree()
    ensures ZeroFree(TAG_TX) && ZeroFree(TAG_ERROR)
  {
  }

  /** Part lists whose parts have pairwise equal lengths are recovered from their terminated form. */
  lemma {:induction false} TerminatedInjective(a: seq<Bytes>, b: seq<Bytes>)
    requires |a| == |b| && forall i | 0 <= i < |a| :: |a[i]| == |b[i]|
    requires Terminated(a) == Terminated(b)
    ensures a == b
  {
    if a != [] {
      var n := |a[0]|;
      assert a[0] == Terminated(a)[..n] && b[0] == Terminated(b)[..n];
      assert Terminated(a)[n + 1..] == Terminated(a[1..]);
      assert Terminated(b)[n + 1..] == Terminated(b[1..]);
      TerminatedInjective(a[1..], b[1..]);
      assert a == [a[0]] + a[1..] && b == [b[0]] + b[1..];
    }
  }

  // ---------- Merkle nodes ----------

  function NodePreimage(l: Hash, r: Hash): Bytes {
    PartsPreimage(TAG_MERKLE_NODE, [l, r])
  }

  /** An inner node hashes the tag, the left child and the right child, each ended by a zero byte. */
  lemma {:induction false} NodeLayout(l: Hash, r: Hash)
    ensures NodePreimage(l, r) == Utf8("dchat/merkle/node/v1") + [0] + l + [0] + r + [0]
  {
    hide Utf8;
    PairLayout(l, r);
  }

  lemma PairLayout(a: Bytes, b: Bytes)
    ensures Terminated([a, b]) == a + [0] + b + [0]
  {
    var none: seq<Bytes> := [];
    assert [a, b][1..] == [b] && [b][1..] == none;
    assert Terminated([b]) == b + [0] + Terminated(none);
  }

  /** The node function of `merkle_root`. */
  function TaggedNode(digest: Digest): (Hash, Hash) -> Hash {
    (l: Hash, r: Hash) => digest(NodePreimage(l, r))
  }

  /** The two hashes, untagged. */
  function PlainPreimage(l: Hash, r: Hash): Bytes {
    var left: Bytes := l;
    left + r
  }

  /** The node function of `calculate_merkle_root`. */
  function PlainNode(digest: Digest): (Hash, Hash) -> Hash {
    (l: Hash, r: Hash) => digest(PlainPreimage(l, r))
  }

  lemma {:induction false} NodePreimageInjective(p: (Hash, Hash), q: (Hash, Hash))
    requires NodePreimage(p.0, p.1) == NodePreimage(q.0, q.1)
    ensures p == q
  {
    var a: seq<Bytes>, b: seq<Bytes> := [p.0, p.1], [q.0, q.1];
    var n := |TAG_MERKLE_NODE| + 1;
    assert NodePreimage(p.0, p.1)[n..] == Terminated(a);
    assert NodePreimage(q.0, q.1)[n..] == Terminated(b);
    TerminatedInjective(a, b);
    assert a[0] == b[0] && a[1] == b[1];
  }

  /** No two different byte strings of the given set have one digest. */
  ghost predicate NoCollision(digest: Digest, preimages: set<Bytes>) {
    forall x, y | x in preimages && y in preimages :: digest(x) == digest(y) ==> x == y
  }
}
