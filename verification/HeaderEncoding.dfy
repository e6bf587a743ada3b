/**
 The hash of a miniblock header (`Miniblock::header_hash`): the canonical bincode form, fixed-width
 little-endian with length-prefixed hashes, under its own domain tag.
 */
module HeaderEncoding {
  import opened Bytes
  import opened Canonical
  import opened Miniblocks
  import opened StateEncoding

  /** A byte string in bincode: its length in eight bytes, then the bytes. */
  function HashField(h: Hash): Bytes {
    LittleEndian(32, 8) + h
  }

  function HeaderFields(h: MiniblockHeader): seq<Bytes> {
    var c := h.commitments;
    [LittleEndian(h.index, 2), LittleEndian(h.timestamp.secs, 8), LittleEndian(h.timestamp.nanos, 4), LittleEndian(h.lane, 2),
     HashField(c.txRoot), HashField(c.receiptsRoot),
     LittleEndian(c.txCount, 2), LittleEndian(c.bodyBytes, 4), LittleEndian(c.sigchecks, 2),
     HashField(h.preStateHash), HashField(h.postStateHash), LittleEndian(h.gasUsed, 8)]
  }

  /** `canonical_serialize` of a header. */
  function HeaderBytes(h: MiniblockHeader): Bytes {
    Concat(HeaderFields(h))
  }

  function HeaderPreimage(h: MiniblockHeader): Bytes {
    DataPreimage(TAG_MINIBLOCK_HEADER, HeaderBytes(h))
  }

  /** `header_hash`. */
  function HeaderHash(digest: Digest, h: MiniblockHeader): Hash {
    digest(HeaderPreimage(h))
  }

  function HeaderHashes(digest: Digest, hs: seq<MiniblockHeader>): (r: seq<Hash>)
    ensures |r| == |hs| && forall i | 0 <= i < |hs| :: r[i] == HeaderHash(digest, hs[i])
  {
    if hs == [] then [] else HeaderHashes(digest, hs[..|hs| - 1]) + [HeaderHash(digest, hs[|hs| - 1])]
  }

  /** The fields in the order of their declaration, hashes with their length before them. */
  lemma {:induction false} HeaderLayout(h: MiniblockHeader)
    ensures var c, len := h.commitments, LittleEndian(32, 8);
            HeaderBytes(h)
            == LittleEndian(h.index, 2) + (LittleEndian(h.timestamp.secs, 8) + (LittleEndian(h.timestamp.nanos, 4) + (LittleEndian(h.lane, 2)
             + (len + c.txRoot + (len + c.receiptsRoot
             + (LittleEndian(c.txCount, 2) + (LittleEndian(c.bodyBytes, 4) + (LittleEndian(c.sigchecks, 2)
             + (len + h.preStateHash + (len + h.postStateHash + LittleEndian(h.gasUsed, 8)))))))))))
  {
    hide Concat, LittleEndian;
    var f := HeaderFields(h);
    assert Concat(f[11..]) == f[11] by { assert f[11..] == [f[11]]; OneChunk(f[11]); }
    FieldFirst(f, 10);
    FieldFirst(f, 9);
    FieldFirst(f, 8);
    FieldFirst(f, 7);
    FieldFirst(f, 6);
    FieldFirst(f, 5);
    FieldFirst(f, 4);
    FieldFirst(f, 3);
    FieldFirst(f, 2);
    FieldFirst(f, 1);
    FieldFirst(f, 0);
    assert f[0..] == f;
  }

  lemma {:induction false} FieldFirst(fields: seq<Bytes>, i: nat)
    requires i < |fields|
    ensures Concat(fields[i..]) == fields[i] + Concat(fields[i + 1..])
  {
    hide Concat;
    assert fields[i..] == [fields[i]] + fields[i + 1..];
    ConcatPrepend(fields[i], fields[i + 1..]);
  }

  // ---------- the encoding is injective ----------

  /** Field lists whose fields have pairwise equal lengths are recovered from their concatenation. */
  lemma {:induction false} FieldsInjective(a: seq<Bytes>, b: seq<Bytes>)
    requires |a| == |b| && forall i | 0 <= i < |a| :: |a[i]| == |b[i]|
    requires Concat(a) == Concat(b)
    ensures a == b
  {
    if a != [] {
      var n := |a| - 1;
      var whole := Concat(a);
      var k := |whole| - |a[n]|;
      assert whole[..k] == Concat(a[..n]) && whole[k..] == a[n];
      assert whole[..k] == Concat(b[..n]) && whole[k..] == b[n];
      FieldsInjective(a[..n], b[..n]);
      assert a == a[..n] + [a[n]] && b == b[..n] + [b[n]];
    }
  }

  lemma {:induction false} ConcatAtLeast(fields: seq<Bytes>, i: nat)
    requires i < |fields|
    ensures |Concat(fields)| >= |fields[i]|
  {
    var n := |fields| - 1;
    if i < n {
      ConcatAtLeast(fields[..n], i);
    }
  }

  lemma HeaderBytesLength(h: MiniblockHeader)
    ensures |HeaderBytes(h)| >= 40
  {
    hide Concat;
    ConcatAtLeast(HeaderFields(h), 4);
  }

  lemma {:induction false} WordField(x: nat, y: nat, width: nat)
    requires LittleEndian(x, width) == LittleEndian(y, width)
    requires (width == 2 && x <= U16_MAX && y <= U16_MAX) || (width == 4 && x <= U32_MAX && y <= U32_MAX)
          || (width == 8 && x <= U64_MAX && y <= U64_MAX)
    ensures x == y
  {
    hide LittleEndian;
    WordSizes();
    assert Pow256(2) == 0x1_0000 by { assert Pow256(1) == 256 * Pow256(0); }
    WordRecovered(x, y, width);
  }

  lemma HashFieldInjective(g: Hash, h: Hash)
    requires HashField(g) == HashField(h)
    ensures g == h
  {
    hide LittleEndian;
    assert HashField(g)[8..] == g && HashField(h)[8..] == h;
  }

  lemma {:induction false} HeaderFieldsInjective(g: MiniblockHeader, h: MiniblockHeader)
    requires HeaderFields(g) == HeaderFields(h)
    ensures g == h
  {
    hide LittleEndian, HashField;
    var a, b := HeaderFields(g), HeaderFields(h);
    assert forall i | 0 <= i < 12 :: a[i] == b[i];
    WordField(g.index, h.index, 2);
    assert a[1] == b[1];
    WordField(g.timestamp.secs, h.timestamp.secs, 8);
    assert a[2] == b[2] && a[3] == b[3];
    WordField(g.timestamp.nanos, h.timestamp.nanos, 4);
    WordField(g.lane, h.lane, 2);
    var c, d := g.commitments, h.commitments;
    assert a[4] == b[4] && a[5] == b[5];
    HashFieldInjective(c.txRoot, d.txRoot);
    HashFieldInjective(c.receiptsRoot, d.receiptsRoot);
    assert a[6] == b[6] && a[7] == b[7] && a[8] == b[8];
    WordField(c.txCount, d.txCount, 2);
    WordField(c.bodyBytes, d.bodyBytes, 4);
    WordField(c.sigchecks, d.sigchecks, 2);
    assert a[9] == b[9] && a[10] == b[10] && a[11] == b[11];
    HashFieldInjective(g.preStateHash, h.preStateHash);
    HashFieldInjective(g.postStateHash, h.postStateHash);
    WordField(g.gasUsed, h.gasUsed, 8);
  }

  /** Two headers with one preimage are the same header, field by field. */
  lemma {:induction false} HeaderPreimageInjective(g: MiniblockHeader, h: MiniblockHeader)
    requires HeaderPreimage(g) == HeaderPreimage(h)
    ensures g == h
  {
    hide Concat, Utf8, LittleEndian;
    var n := |Utf8(TAG_MINIBLOCK_HEADER)| + 1;
    assert HeaderPreimage(g)[n..] == HeaderBytes(g) && HeaderPreimage(h)[n..] == HeaderBytes(h);
    FieldsInjective(HeaderFields(g), HeaderFields(h));
    HeaderFieldsInjective(g, h);
  }

  /** No header's preimage is that of an untagged inner node, which has 64 bytes. */
  lemma {:induction false} HeaderIsNotNode(h: MiniblockHeader, l: Hash, r: Hash)
    ensures HeaderPreimage(h) != PlainPreimage(l, r)
  {
    hide HeaderBytes, Utf8;
    HeaderBytesLength(h);
    assert |HeaderPreimage(h)| > 64;
  }
}
