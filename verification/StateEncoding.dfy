/**
 The byte string behind `WorldState::compute_hash` (`block_hierarchy_legacy.rs`): three hash maps
 written one after the other in key order, without separators, counts or column tags.
 */
module StateEncoding {
  import opened Bytes
  import opened Canonical

  type Column = map<string, U64>
  type Slots = map<Bytes, Bytes>
  type Storage = map<string, Slots>

  // ---------- key order ----------

  /** Lexicographic `<`, the order of Rust's strings and byte vectors. */
  function LexLess(a: seq<int>, b: seq<int>): bool {
    b != [] && (a == [] || a[0] < b[0] || (a[0] == b[0] && LexLess(a[1..], b[1..])))
  }

  /** The keys agree up to `i`, where the first ends or has the smaller element. */
  ghost predicate PrecedesAt(a: seq<int>, b: seq<int>, i: nat) {
    i <= |a| && i < |b| && a[..i] == b[..i] && (i == |a| || a[i] < b[i])
  }

  lemma {:induction false} LexMeans(a: seq<int>, b: seq<int>)
    ensures LexLess(a, b) <==> exists i: nat :: PrecedesAt(a, b, i)
    decreases |a|
  {
    if LexLess(a, b) {
      if a == [] || a[0] < b[0] {
        assert PrecedesAt(a, b, 0);
      } else {
        LexMeans(a[1..], b[1..]);
        var i: nat :| PrecedesAt(a[1..], b[1..], i);
        assert a[..i + 1] == [a[0]] + a[1..][..i] && b[..i + 1] == [b[0]] + b[1..][..i];
        assert PrecedesAt(a, b, i + 1);
      }
    }
    if i: nat :| PrecedesAt(a, b, i) {
      if i > 0 {
        assert a[..i][0] == b[..i][0];
        assert a[1..][..i - 1] == a[..i][1..] && b[1..][..i - 1] == b[..i][1..];
        assert PrecedesAt(a[1..], b[1..], i - 1);
        LexMeans(a[1..], b[1..]);
      }
    }
  }

  lemma {:induction false} LexTotal(a: seq<int>, b: seq<int>)
    ensures a == b || LexLess(a, b) || LexLess(b, a)
    ensures !(LexLess(a, b) && LexLess(b, a)) && !LexLess(a, a)
    decreases |a| + |b|
  {
    if a != [] && b != [] && a[0] == b[0] {
      LexTotal(a[1..], b[1..]);
      if a[1..] == b[1..] {
        assert a == [a[0]] + a[1..] == b;
      }
    }
    LexIrreflexive(a);
  }

  lemma {:induction false} LexIrreflexive(a: seq<int>)
    ensures !LexLess(a, a)
  {
    if a != [] {
      LexIrreflexive(a[1..]);
    }
  }

  lemma {:induction false} LexTransitive(a: seq<int>, b: seq<int>, c: seq<int>)
    requires LexLess(a, b) && LexLess(b, c)
    ensures LexLess(a, c)
  {
    if a != [] && a[0] == b[0] == c[0] {
      LexTransitive(a[1..], b[1..], c[1..]);
    }
  }

  /** How keys are compared: each has a code, and different keys have different codes. */
  ghost predicate Distinguishes<K(!new)>(code: K -> seq<int>) {
    forall a: K, b: K | code(a) == code(b) :: a == b
  }

  ghost predicate SortedBy<K>(code: K -> seq<int>, ks: seq<K>) {
    forall i, j | 0 <= i < j < |ks| :: LexLess(code(ks[i]), code(ks[j]))
  }

  ghost predicate IsSorting<K(!new)>(code: K -> seq<int>, ks: seq<K>, keys: set<K>) {
    SortedBy(code, ks) && forall k :: k in ks <==> k in keys
  }

  /** In the order in which keys are written, each precedes all later ones at their first difference. */
  lemma {:induction false} KeysAscend<K(!new)>(code: K -> seq<int>, ks: seq<K>, keys: set<K>, i: nat, j: nat)
    requires IsSorting(code, ks, keys) && i < j < |ks|
    ensures exists p: nat :: PrecedesAt(code(ks[i]), code(ks[j]), p)
  {
    LexMeans(code(ks[i]), code(ks[j]));
  }

  lemma {:induction false} HeadIsLeast<K(!new)>(code: K -> seq<int>, ks: seq<K>, keys: set<K>, k: K)
    requires IsSorting(code, ks, keys) && k in keys
    ensures ks != [] && (k == ks[0] || LexLess(code(ks[0]), code(k)))
  {
    var i :| 0 <= i < |ks| && ks[i] == k;
  }

  lemma {:induction false} TailSorts<K(!new)>(code: K -> seq<int>, ks: seq<K>, keys: set<K>)
    requires IsSorting(code, ks, keys) && ks != []
    ensures IsSorting(code, ks[1..], keys - {ks[0]})
  {
    LexTotal(code(ks[0]), code(ks[0]));
    forall k
      ensures k in ks[1..] <==> k in keys - {ks[0]}
    {
      if k in ks[1..] {
        var i :| 0 <= i < |ks[1..]| && ks[1..][i] == k;
        assert LexLess(code(ks[0]), code(ks[i + 1]));
      }
      if k in keys - {ks[0]} {
        var i :| 0 <= i < |ks| && ks[i] == k;
        assert ks[1..][i - 1] == k;
      }
    }
  }

  lemma HasElement<K(!new)>(s: seq<K>)
    ensures s != [] ==> exists k :: k in s
  {
    if s != [] {
      assert s[0] in s;
    }
  }

  /** Whatever order the keys were listed in, sorting them gives one and the same list. */
  lemma {:induction false} SortingIsUnique<K(!new)>(code: K -> seq<int>, a: seq<K>, b: seq<K>, keys: set<K>)
    requires IsSorting(code, a, keys) && IsSorting(code, b, keys)
    ensures a == b
    decreases |a|
  {
    if a == [] {
      HasElement(b);
    } else {
      assert a[0] in keys;
      HeadIsLeast(code, b, keys, a[0]);
      assert b[0] in keys;
      HeadIsLeast(code, a, keys, b[0]);
      LexTotal(code(a[0]), code(b[0]));
      TailSorts(code, a, keys);
      TailSorts(code, b, keys);
      SortingIsUnique(code, a[1..], b[1..], keys - {a[0]});
    }
  }

  lemma {:induction false} AfterInsertion<K(!new)>(code: K -> seq<int>, ks: seq<K>, k: K, pos: nat, i: nat)
    requires Distinguishes(code) && SortedBy(code, ks) && k !in ks && pos <= i < |ks|
    requires !LexLess(code(ks[pos]), code(k))
    ensures LexLess(code(k), code(ks[i]))
  {
    hide LexLess;
    assert ks[pos] in ks;
    LexTotal(code(ks[pos]), code(k));
    if i > pos {
      LexTransitive(code(k), code(ks[pos]), code(ks[i]));
    }
  }

  lemma {:induction false} InsertSorts<K(!new)>(code: K -> seq<int>, ks: seq<K>, k: K, pos: nat)
    requires Distinguishes(code) && SortedBy(code, ks) && k !in ks && pos <= |ks|
    requires forall i | 0 <= i < pos :: LexLess(code(ks[i]), code(k))
    requires pos < |ks| ==> !LexLess(code(ks[pos]), code(k))
    ensures SortedBy(code, ks[..pos] + [k] + ks[pos..])
  {
    hide LexLess, Distinguishes;
    var r := ks[..pos] + [k] + ks[pos..];
    forall i, j | 0 <= i < j < |r|
      ensures LexLess(code(r[i]), code(r[j]))
    {
      if i == pos {
        AfterInsertion(code, ks, k, pos, j - 1);
      }
    }
  }

  /** Inserting before the first key that is not less keeps a sorting. */
  lemma {:induction false} InsertIsSorting<K(!new)>(code: K -> seq<int>, ks: seq<K>, keys: set<K>, k: K, pos: nat)
    requires Distinguishes(code) && IsSorting(code, ks, keys) && k !in keys && pos <= |ks|
    requires forall i | 0 <= i < pos :: LexLess(code(ks[i]), code(k))
    requires pos < |ks| ==> !LexLess(code(ks[pos]), code(k))
    ensures IsSorting(code, ks[..pos] + [k] + ks[pos..], keys + {k})
  {
    hide LexLess, Distinguishes, SortedBy;
    InsertSorts(code, ks, k, pos);
    var r := ks[..pos] + [k] + ks[pos..];
    assert ks == ks[..pos] + ks[pos..];
    forall x
      ensures x in r <==> x in keys + {k}
    {
      assert x in ks <==> x in ks[..pos] || x in ks[pos..];
    }
  }

  /** Sorting by insertion, the keys coming in an arbitrary order. */
  method SortKeys<K(!new, ==)>(code: K -> seq<int>, keys: set<K>) returns (ks: seq<K>)
    requires Distinguishes(code)
    ensures IsSorting(code, ks, keys)
  {
    ks := [];
    var rest := keys;
    while rest != {}
      invariant rest <= keys && IsSorting(code, ks, keys - rest)
      decreases rest
    {
      var k :| k in rest;
      var pos := 0;
      while pos < |ks| && LexLess(code(ks[pos]), code(k))
        invariant pos <= |ks| && forall i | 0 <= i < pos :: LexLess(code(ks[i]), code(k))
      {
        pos := pos + 1;
      }
      InsertIsSorting(code, ks, keys - rest, k, pos);
      rest := rest - {k};
      assert keys - rest == keys - (rest + {k}) + {k};
      ks := ks[..pos] + [k] + ks[pos..];
    }
    assert keys - rest == keys;
  }

  lemma {:induction false} SortingExists<K(!new)>(code: K -> seq<int>, keys: set<K>)
    requires Distinguishes(code)
    ensures exists ks :: IsSorting(code, ks, keys)
    decreases |keys|
  {
    if keys == {} {
      assert IsSorting(code, [], keys);
    } else {
      hide *;
      var k :| k in keys;
      var rest := keys - {k};
      SortingExists(code, rest);
      var ks :| IsSorting(code, ks, rest);
      LargerSortingExists(code, ks, rest, k);
      assert rest + {k} == keys;
    }
  }

  lemma {:induction false} LargerSortingExists<K(!new)>(code: K -> seq<int>, ks: seq<K>, keys: set<K>, k: K)
    requires Distinguishes(code) && IsSorting(code, ks, keys) && k !in keys
    ensures exists larger :: IsSorting(code, larger, keys + {k})
  {
    hide *;
    var pos := InsertionPoint(code, ks, k);
    InsertIsSorting(code, ks, keys, k, pos);
    assert IsSorting(code, ks[..pos] + [k] + ks[pos..], keys + {k});
  }

  function InsertionPoint<K>(code: K -> seq<int>, ks: seq<K>, k: K): (pos: nat)
    ensures pos <= |ks| && (pos < |ks| ==> !LexLess(code(ks[pos]), code(k)))
    ensures forall i | 0 <= i < pos :: LexLess(code(ks[i]), code(k))
  {
    if ks == [] || !LexLess(code(ks[0]), code(k)) then 0 else 1 + InsertionPoint(code, ks[1..], k)
  }

  ghost function Sorting<K(!new)>(code: K -> seq<int>, keys: set<K>): (ks: seq<K>)
    requires Distinguishes(code)
    ensures IsSorting(code, ks, keys)
  {
    SortingExists(code, keys);
    var ks :| IsSorting(code, ks, keys);
    ks
  }

  // ---------- strings and byte strings as keys ----------

  function Codes(s: string): (r: seq<int>)
    ensures |r| == |s| && forall i | 0 <= i < |s| :: r[i] == s[i] as int
  {
    if s == [] then [] else [s[0] as int] + Codes(s[1..])
  }

  function Octets(b: Bytes): seq<int> {
    b
  }

  lemma {:induction false} CodesDistinguish()
    ensures Distinguishes(Codes) && Distinguishes(Octets)
  {
    forall a: string, b: string | Codes(a) == Codes(b)
      ensures a == b
    {
      assert |a| == |b| && forall i | 0 <= i < |a| :: Codes(a)[i] == Codes(b)[i];
    }
  }

  ghost function Names(keys: set<string>): (ks: seq<string>)
    ensures IsSorting(Codes, ks, keys)
  {
    CodesDistinguish();
    Sorting(Codes, keys)
  }

  ghost function SlotKeys(keys: set<Bytes>): (ks: seq<Bytes>)
    ensures IsSorting(Octets, ks, keys)
  {
    CodesDistinguish();
    Sorting(Octets, keys)
  }

  // ---------- the encoding ----------

  function Concat(chunks: seq<Bytes>): Bytes {
    if chunks == [] then [] else Concat(chunks[..|chunks| - 1]) + chunks[|chunks| - 1]
  }

  lemma EmptyConcat()
    ensures Concat([]) == []
  {
  }

  lemma {:induction false} ConcatAppend(chunks: seq<Bytes>, c: Bytes)
    ensures Concat(chunks + [c]) == Concat(chunks) + c
  {
    assert (chunks + [c])[..|chunks|] == chunks;
  }

  lemma {:induction false} ConcatPrepend(c: Bytes, chunks: seq<Bytes>)
    ensures Concat([c] + chunks) == c + Concat(chunks)
  {
    if chunks == [] {
      assert [c] + chunks == [c] && [c][..0] == [];
    } else {
      hide Concat;
      var n := |chunks| - 1;
      ConcatPrepend(c, chunks[..n]);
      assert [c] + chunks == ([c] + chunks[..n]) + [chunks[n]] && chunks == chunks[..n] + [chunks[n]];
      ConcatAppend([c] + chunks[..n], chunks[n]);
      ConcatAppend(chunks[..n], chunks[n]);
      assert c + (Concat(chunks[..n]) + chunks[n]) == c + Concat(chunks[..n]) + chunks[n];
    }
  }

  function Entry(name: string, v: U64): Bytes {
    Utf8(name) + LittleEndian(v, 8)
  }

  function Entries(ks: seq<string>, m: Column): (r: seq<Bytes>)
    requires forall k | k in ks :: k in m
    ensures |r| == |ks| && forall i | 0 <= i < |ks| :: r[i] == Entry(ks[i], m[ks[i]])
  {
    if ks == [] then []
    else
      var n := |ks| - 1;
      Entries(ks[..n], m) + [Entry(ks[n], m[ks[n]])]
  }

  function SlotEntries(ks: seq<Bytes>, m: Slots): (r: seq<Bytes>)
    requires forall k | k in ks :: k in m
    ensures |r| == |ks| && forall i | 0 <= i < |ks| :: r[i] == ks[i] + m[ks[i]]
  {
    if ks == [] then []
    else
      var n := |ks| - 1;
      SlotEntries(ks[..n], m) + [ks[n] + m[ks[n]]]
  }

  ghost function SlotBytes(m: Slots): Bytes {
    Concat(SlotEntries(SlotKeys(m.Keys), m))
  }

  ghost function AccountEntry(name: string, slots: Slots): Bytes {
    Utf8(name) + SlotBytes(slots)
  }

  ghost function AccountEntries(ks: seq<string>, m: Storage): (r: seq<Bytes>)
    requires forall k | k in ks :: k in m
    ensures |r| == |ks| && forall i | 0 <= i < |ks| :: r[i] == AccountEntry(ks[i], m[ks[i]])
  {
    if ks == [] then []
    else
      var n := |ks| - 1;
      AccountEntries(ks[..n], m) + [AccountEntry(ks[n], m[ks[n]])]
  }

  ghost function ColumnBytes(m: Column): Bytes {
    Concat(Entries(Names(m.Keys), m))
  }

  ghost function StorageBytes(m: Storage): Bytes {
    Concat(AccountEntries(Names(m.Keys), m))
  }

  ghost function StatePreimage(balances: Column, nonces: Column, storage: Storage): Bytes {
    ColumnBytes(balances) + ColumnBytes(nonces) + StorageBytes(storage)
  }

  // ---------- the loops that feed the hasher ----------

  method WriteEntries(ks: seq<string>, m: Column) returns (bytes: Bytes)
    requires forall k | k in ks :: k in m
    ensures bytes == Concat(Entries(ks, m))
  {
    hide Entry, Concat;
    EmptyConcat();
    bytes := [];
    for i := 0 to |ks|
      invariant bytes == Concat(Entries(ks[..i], m))
    {
      assert ks[..i + 1][..i] == ks[..i];
      ConcatAppend(Entries(ks[..i], m), Entry(ks[i], m[ks[i]]));
      bytes := bytes + Entry(ks[i], m[ks[i]]);
    }
    assert ks[..|ks|] == ks;
  }

  /** One column of `compute_hash`: collect in any order, sort, write. */
  method EncodeColumn(m: Column) returns (bytes: Bytes)
    ensures bytes == ColumnBytes(m)
  {
    hide Distinguishes, SortedBy, Concat, Entries;
    CodesDistinguish();
    var ks := SortKeys(Codes, m.Keys);
    SortingIsUnique(Codes, ks, Names(m.Keys), m.Keys);
    bytes := WriteEntries(ks, m);
  }

  method EncodeSlots(m: Slots) returns (bytes: Bytes)
    ensures bytes == SlotBytes(m)
  {
    hide Distinguishes, SortedBy, Concat, SlotEntries;
    CodesDistinguish();
    var ks := SortKeys(Octets, m.Keys);
    SortingIsUnique(Octets, ks, SlotKeys(m.Keys), m.Keys);
    bytes := WriteSlots(ks, m);
  }

  method WriteSlots(ks: seq<Bytes>, m: Slots) returns (bytes: Bytes)
    requires forall k | k in ks :: k in m
    ensures bytes == Concat(SlotEntries(ks, m))
  {
    hide Concat;
    EmptyConcat();
    bytes := [];
    for i := 0 to |ks|
      invariant bytes == Concat(SlotEntries(ks[..i], m))
    {
      assert ks[..i + 1][..i] == ks[..i];
      ConcatAppend(SlotEntries(ks[..i], m), ks[i] + m[ks[i]]);
      bytes := bytes + (ks[i] + m[ks[i]]);
    }
    assert ks[..|ks|] == ks;
  }

  lemma AccountEntryIs(name: string, slots: Slots)
    ensures AccountEntry(name, slots) == Utf8(name) + SlotBytes(slots)
  {
  }

  method EncodeStorage(m: Storage) returns (bytes: Bytes)
    ensures bytes == StorageBytes(m)
  {
    hide Distinguishes, SortedBy, Concat, AccountEntries;
    CodesDistinguish();
    var ks := SortKeys(Codes, m.Keys);
    SortingIsUnique(Codes, ks, Names(m.Keys), m.Keys);
    bytes := WriteAccounts(ks, m);
  }

  method WriteAccounts(ks: seq<string>, m: Storage) returns (bytes: Bytes)
    requires forall k | k in ks :: k in m
    ensures bytes == Concat(AccountEntries(ks, m))
  {
    hide Utf8, AccountEntry, SlotBytes, Concat;
    EmptyConcat();
    bytes := [];
    for i := 0 to |ks|
      invariant bytes == Concat(AccountEntries(ks[..i], m))
    {
      assert ks[..i + 1][..i] == ks[..i];
      var slots := EncodeSlots(m[ks[i]]);
      AccountEntryIs(ks[i], m[ks[i]]);
      ConcatAppend(AccountEntries(ks[..i], m), AccountEntry(ks[i], m[ks[i]]));
      bytes := bytes + (Utf8(ks[i]) + slots);
    }
    assert ks[..|ks|] == ks;
  }

  // ---------- what the encoding does not bind ----------

  lemma {:induction false} NoNames()
    ensures Names({}) == []
  {
    hide LexLess;
    SortingIsUnique(Codes, Names({}), [], {});
  }

  lemma {:induction false} OneName(k: string)
    ensures Names({k}) == [k]
  {
    hide LexLess;
    SortingIsUnique(Codes, Names({k}), [k], {k});
  }

  lemma {:induction false} OneSlot(k: Bytes)
    ensures SlotKeys({k}) == [k]
  {
    hide LexLess;
    SortingIsUnique(Octets, SlotKeys({k}), [k], {k});
  }

  lemma {:induction false} OneChunk(c: Bytes)
    ensures Concat([c]) == c
  {
    ConcatAppend([], c);
    EmptyConcat();
    assert [] + [c] == [c];
  }

  lemma {:induction false} OneEntry(k: string, v: U64)
    ensures ColumnBytes(map[k := v]) == Utf8(k) + LittleEndian(v, 8)
  {
    hide Concat, LittleEndian;
    var m: Column := map[k := v];
    assert m.Keys == {k};
    OneName(k);
    assert Entries([k], m) == [Entry(k, v)];
    OneChunk(Entry(k, v));
  }

  lemma {:induction false} OneAccount(a: string, k: Bytes, v: Bytes)
    ensures StorageBytes(map[a := map[k := v]]) == Utf8(a) + (k + v)
  {
    hide Concat;
    var slots: Slots := map[k := v];
    var m: Storage := map[a := slots];
    assert slots.Keys == {k} && m.Keys == {a};
    OneSlot(k);
    OneName(a);
    assert SlotEntries([k], slots) == [k + v];
    OneChunk(k + v);
    assert AccountEntries([a], m) == [AccountEntry(a, slots)];
    OneChunk(AccountEntry(a, slots));
  }

  /** One entry of each kind: name and balance, name and nonce, then account, key and value. */
  lemma {:induction false} StateLayout(k: string, v: U64, j: string, u: U64, a: string, key: Bytes, value: Bytes)
    ensures StatePreimage(map[k := v], map[j := u], map[a := map[key := value]])
         == Utf8(k) + LittleEndian(v, 8) + (Utf8(j) + LittleEndian(u, 8)) + (Utf8(a) + (key + value))
  {
    hide ColumnBytes, StorageBytes, LittleEndian, Utf8;
    OneEntry(k, v);
    OneEntry(j, u);
    OneAccount(a, key, value);
  }

  /** Columns are not told apart: an entry counts the same as a balance and as a nonce. */
  lemma {:induction false} ColumnsAreNotSeparated(k: string, v: U64)
    ensures StatePreimage(map[k := v], map[], map[]) == StatePreimage(map[], map[k := v], map[])
    ensures map[k := v] != map[]
  {
    hide Concat;
    NoColumn();
    assert k in map[k := v];
  }

  lemma NoColumn()
    ensures ColumnBytes(map[]) == [] && StorageBytes(map[]) == []
  {
    hide Concat;
    NoNames();
    EmptyConcat();
    var column: Column, storage: Storage := map[], map[];
    assert column.Keys == {} && storage.Keys == {};
    assert Entries([], column) == [] && AccountEntries([], storage) == [];
  }

  lemma SamePreimage(m: Column, n: Column)
    ensures StatePreimage(m, map[], map[]) == StatePreimage(n, map[], map[]) <==> ColumnBytes(m) == ColumnBytes(n)
  {
    hide ColumnBytes, StorageBytes;
    NoColumn();
    assert StatePreimage(m, map[], map[]) == ColumnBytes(m);
    assert StatePreimage(n, map[], map[]) == ColumnBytes(n);
  }

  // ---------- and when it does ----------

  lemma {:induction false} ConcatLength(chunks: seq<Bytes>, c: nat)
    requires forall i | 0 <= i < |chunks| :: |chunks[i]| == c
    ensures |Concat(chunks)| == |chunks| * c
  {
    if chunks != [] {
      var n := |chunks| - 1;
      ConcatLength(chunks[..n], c);
      assert |chunks| * c == n * c + c;
    }
  }

  /** Chunks of one length are recovered from their concatenation. */
  lemma {:induction false} ConcatInjective(a: seq<Bytes>, b: seq<Bytes>, c: nat)
    requires c > 0 && (forall i | 0 <= i < |a| :: |a[i]| == c) && (forall i | 0 <= i < |b| :: |b[i]| == c)
    requires Concat(a) == Concat(b)
    ensures a == b
  {
    ConcatLength(a, c);
    ConcatLength(b, c);
    SameFactor(|a|, |b|, c);
    if a != [] {
      var n := |a| - 1;
      assert |Concat(a[..n])| == |Concat(b[..n])| by {
        ConcatLength(a[..n], c);
        ConcatLength(b[..n], c);
      }
      var whole := Concat(a);
      var k := |Concat(a[..n])|;
      assert whole[..k] == Concat(a[..n]) && whole[k..] == a[n];
      assert whole[..k] == Concat(b[..n]) && whole[k..] == b[n];
      ConcatInjective(a[..n], b[..n], c);
      assert a == a[..n] + [a[n]] && b == b[..n] + [b[n]];
    }
  }

  lemma SameFactor(x: nat, y: nat, c: nat)
    requires c > 0 && x * c == y * c
    ensures x == y
  {
    assert (x - y) * c == 0;
  }

  /** Names of one length, in characters that take one byte each. */
  ghost predicate OfLength(keys: set<string>, len: nat) {
    forall k | k in keys :: |k| == len && forall i | 0 <= i < len :: k[i] as int < 256
  }

  lemma {:induction false} EntryInjective(j: string, k: string, x: U64, y: U64, len: nat)
    requires OfLength({j, k}, len) && Entry(j, x) == Entry(k, y)
    ensures j == k && x == y
  {
    hide LittleEndian;
    assert j in {j, k} && k in {j, k};
    assert Entry(j, x)[..len] == Utf8(j) && Entry(k, y)[..len] == Utf8(k);
    assert Entry(j, x)[len..] == LittleEndian(x, 8) && Entry(k, y)[len..] == LittleEndian(y, 8);
    WordSizes();
    WordRecovered(x, y, 8);
    forall i | 0 <= i < len
      ensures j[i] == k[i]
    {
      assert Utf8(j)[i] == Utf8(k)[i];
    }
  }

  /** A column whose names have one length is determined by its bytes, whatever the number of entries. */
  lemma {:induction false} ColumnBinds(m: Column, n: Column, len: nat)
    requires OfLength(m.Keys, len) && OfLength(n.Keys, len)
    requires ColumnBytes(m) == ColumnBytes(n)
    ensures m == n
  {
    hide Concat, SortedBy, OfLength;
    var j, k := Names(m.Keys), Names(n.Keys);
    EntriesLength(j, m, len);
    EntriesLength(k, n, len);
    ConcatInjective(Entries(j, m), Entries(k, n), len + 8);
    EntriesBind(j, k, m, n, len);
    SameColumn(j, m, n);
  }

  lemma {:induction false} EntriesBind(j: seq<string>, k: seq<string>, m: Column, n: Column, len: nat)
    requires (forall x | x in j :: x in m) && (forall x | x in k :: x in n)
    requires OfLength(m.Keys, len) && OfLength(n.Keys, len) && Entries(j, m) == Entries(k, n)
    ensures j == k && forall i | 0 <= i < |j| :: m[j[i]] == n[k[i]]
  {
    hide Entry, OfLength;
    assert |Entries(j, m)| == |Entries(k, n)|;
    forall i | 0 <= i < |j|
      ensures j[i] == k[i] && m[j[i]] == n[k[i]]
    {
      assert Entries(j, m)[i] == Entries(k, n)[i] && j[i] in m && k[i] in n;
      PairOfLength(m.Keys, n.Keys, j[i], k[i], len);
      EntryInjective(j[i], k[i], m[j[i]], n[k[i]], len);
    }
  }

  lemma PairOfLength(a: set<string>, b: set<string>, j: string, k: string, len: nat)
    requires OfLength(a, len) && OfLength(b, len) && j in a && k in b
    ensures OfLength({j, k}, len)
  {
  }

  lemma EntriesLength(ks: seq<string>, m: Column, len: nat)
    requires (forall k | k in ks :: k in m) && OfLength(m.Keys, len)
    ensures forall i | 0 <= i < |ks| :: |Entries(ks, m)[i]| == len + 8
  {
  }

  lemma SameColumn<V>(ks: seq<string>, m: map<string, V>, n: map<string, V>)
    requires (forall k :: k in ks <==> k in m) && (forall k :: k in ks <==> k in n)
    requires forall i | 0 <= i < |ks| :: m[ks[i]] == n[ks[i]]
    ensures m == n
  {
    forall k | k in m
      ensures m[k] == n[k]
    {
      var i :| 0 <= i < |ks| && ks[i] == k;
    }
  }

  lemma {:induction false} SortingLength<K(!new)>(code: K -> seq<int>, ks: seq<K>, keys: set<K>)
    requires IsSorting(code, ks, keys)
    ensures |ks| == |keys|
    decreases |ks|
  {
    hide LexLess;
    if ks == [] {
      NothingSorted(code, keys);
    } else {
      TailSorts(code, ks, keys);
      SortingLength(code, ks[1..], keys - {ks[0]});
      assert ks[0] in keys;
      assert keys == keys - {ks[0]} + {ks[0]};
    }
  }

  lemma NothingSorted<K(!new)>(code: K -> seq<int>, keys: set<K>)
    requires IsSorting(code, [], keys)
    ensures keys == {}
  {
    assert forall k | k in keys :: k in [];
  }

  lemma {:induction false} ColumnLength(m: Column, len: nat)
    requires OfLength(m.Keys, len)
    ensures |ColumnBytes(m)| == |m.Keys| * (len + 8)
  {
    hide Concat, SortedBy, OfLength;
    var ks := Names(m.Keys);
    EntriesLength(ks, m, len);
    ConcatLength(Entries(ks, m), len + 8);
    SortingLength(Codes, ks, m.Keys);
  }

  /** So many slots, all keys of one length and all values of one length. */
  ghost predicate SlotShape(m: Slots, count: nat, keyLen: nat, valueLen: nat) {
    |m.Keys| == count && forall k | k in m :: |k| == keyLen && |m[k]| == valueLen
  }

  ghost predicate StorageShape(m: Storage, len: nat, count: nat, keyLen: nat, valueLen: nat) {
    OfLength(m.Keys, len) && forall k | k in m :: SlotShape(m[k], count, keyLen, valueLen)
  }

  lemma {:induction false} SlotsLength(m: Slots, count: nat, keyLen: nat, valueLen: nat)
    requires SlotShape(m, count, keyLen, valueLen)
    ensures |SlotBytes(m)| == count * (keyLen + valueLen)
  {
    hide Concat, SortedBy;
    var ks := SlotKeys(m.Keys);
    ConcatLength(SlotEntries(ks, m), keyLen + valueLen);
    SortingLength(Octets, ks, m.Keys);
  }

  lemma {:induction false} SlotEntriesBind(j: seq<Bytes>, k: seq<Bytes>, m: Slots, n: Slots, keyLen: nat)
    requires (forall x | x in j :: x in m && |x| == keyLen) && (forall x | x in k :: x in n && |x| == keyLen)
    requires SlotEntries(j, m) == SlotEntries(k, n)
    ensures j == k && forall i | 0 <= i < |j| :: m[j[i]] == n[k[i]]
  {
    var a, b := SlotEntries(j, m), SlotEntries(k, n);
    assert |a| == |b|;
    forall i | 0 <= i < |j|
      ensures j[i] == k[i] && m[j[i]] == n[k[i]]
    {
      assert a[i] == b[i] && j[i] in j && k[i] in k;
      assert a[i][..keyLen] == j[i] && b[i][..keyLen] == k[i];
      assert a[i][keyLen..] == m[j[i]] && b[i][keyLen..] == n[k[i]];
    }
  }

  lemma SameSlots(ks: seq<Bytes>, m: Slots, n: Slots)
    requires (forall k :: k in ks <==> k in m) && (forall k :: k in ks <==> k in n)
    requires forall i | 0 <= i < |ks| :: m[ks[i]] == n[ks[i]]
    ensures m == n
  {
    forall k | k in m
      ensures m[k] == n[k]
    {
      var i :| 0 <= i < |ks| && ks[i] == k;
    }
  }

  lemma {:induction false} SlotsBind(m: Slots, n: Slots, count: nat, keyLen: nat, valueLen: nat)
    requires SlotShape(m, count, keyLen, valueLen) && SlotShape(n, count, keyLen, valueLen) && keyLen + valueLen > 0
    requires SlotBytes(m) == SlotBytes(n)
    ensures m == n
  {
    hide Concat, SortedBy, SlotEntries;
    var j, k := SlotKeys(m.Keys), SlotKeys(n.Keys);
    SlotEntriesLength(j, m, keyLen, valueLen);
    SlotEntriesLength(k, n, keyLen, valueLen);
    ConcatInjective(SlotEntries(j, m), SlotEntries(k, n), keyLen + valueLen);
    SlotEntriesBind(j, k, m, n, keyLen);
    SameSlots(j, m, n);
  }

  lemma SlotEntriesLength(ks: seq<Bytes>, m: Slots, keyLen: nat, valueLen: nat)
    requires forall k | k in ks :: k in m && |k| == keyLen && |m[k]| == valueLen
    ensures forall i | 0 <= i < |ks| :: |SlotEntries(ks, m)[i]| == keyLen + valueLen
  {
  }

  lemma {:induction false} AccountInjective(j: string, k: string, x: Slots, y: Slots, len: nat,
                                            count: nat, keyLen: nat, valueLen: nat)
    requires OfLength({j, k}, len) && AccountEntry(j, x) == AccountEntry(k, y) && keyLen + valueLen > 0
    requires SlotShape(x, count, keyLen, valueLen) && SlotShape(y, count, keyLen, valueLen)
    ensures j == k && x == y
  {
    hide SlotBytes, SlotShape;
    AccountEntryIs(j, x);
    AccountEntryIs(k, y);
    hide AccountEntry;
    assert j in {j, k} && k in {j, k};
    assert AccountEntry(j, x)[..len] == Utf8(j) && AccountEntry(k, y)[..len] == Utf8(k);
    assert AccountEntry(j, x)[len..] == SlotBytes(x) && AccountEntry(k, y)[len..] == SlotBytes(y);
    SlotsBind(x, y, count, keyLen, valueLen);
    forall i | 0 <= i < len
      ensures j[i] == k[i]
    {
      assert Utf8(j)[i] == Utf8(k)[i];
    }
  }

  lemma {:induction false} AccountsLength(ks: seq<string>, m: Storage, len: nat, count: nat, keyLen: nat, valueLen: nat)
    requires (forall k | k in ks :: k in m) && StorageShape(m, len, count, keyLen, valueLen)
    ensures forall i | 0 <= i < |ks| :: |AccountEntries(ks, m)[i]| == len + count * (keyLen + valueLen)
  {
    hide SlotShape, AccountEntry, SlotBytes;
    forall i | 0 <= i < |ks|
      ensures |AccountEntries(ks, m)[i]| == len + count * (keyLen + valueLen)
    {
      assert ks[i] in m;
      AccountEntryIs(ks[i], m[ks[i]]);
      SlotsLength(m[ks[i]], count, keyLen, valueLen);
    }
  }

  lemma {:induction false} AccountsBind(j: seq<string>, k: seq<string>, m: Storage, n: Storage, len: nat,
                                        count: nat, keyLen: nat, valueLen: nat)
    requires (forall x | x in j :: x in m) && (forall x | x in k :: x in n) && keyLen + valueLen > 0
    requires StorageShape(m, len, count, keyLen, valueLen) && StorageShape(n, len, count, keyLen, valueLen)
    requires AccountEntries(j, m) == AccountEntries(k, n)
    ensures j == k && forall i | 0 <= i < |j| :: m[j[i]] == n[k[i]]
  {
    hide AccountEntry, SlotShape, OfLength;
    assert |AccountEntries(j, m)| == |AccountEntries(k, n)|;
    forall i | 0 <= i < |j|
      ensures j[i] == k[i] && m[j[i]] == n[k[i]]
    {
      assert AccountEntries(j, m)[i] == AccountEntries(k, n)[i] && j[i] in m && k[i] in n;
      PairOfLength(m.Keys, n.Keys, j[i], k[i], len);
      AccountInjective(j[i], k[i], m[j[i]], n[k[i]], len, count, keyLen, valueLen);
    }
  }

  lemma {:induction false} StorageBinds(m: Storage, n: Storage, len: nat, count: nat, keyLen: nat, valueLen: nat)
    requires StorageShape(m, len, count, keyLen, valueLen) && StorageShape(n, len, count, keyLen, valueLen)
    requires len > 0 && keyLen + valueLen > 0 && StorageBytes(m) == StorageBytes(n)
    ensures m == n
  {
    hide Concat, SortedBy, SlotShape, OfLength, AccountEntry;
    var j, k := Names(m.Keys), Names(n.Keys);
    AccountsLength(j, m, len, count, keyLen, valueLen);
    AccountsLength(k, n, len, count, keyLen, valueLen);
    ConcatInjective(AccountEntries(j, m), AccountEntries(k, n), len + count * (keyLen + valueLen));
    AccountsBind(j, k, m, n, len, count, keyLen, valueLen);
    SameColumn(j, m, n);
  }

  /**
   With names of one length in each column, equally many balances and equally many nonces, and
   storage of one shape, the preimage determines all three columns.
   */
  lemma {:induction false} StateBinds(b: Column, n: Column, s: Storage, b': Column, n': Column, s': Storage,
                                      len: nat, nonceLen: nat, nameLen: nat, count: nat, keyLen: nat, valueLen: nat)
    requires OfLength(b.Keys, len) && OfLength(b'.Keys, len) && |b.Keys| == |b'.Keys|
    requires OfLength(n.Keys, nonceLen) && OfLength(n'.Keys, nonceLen) && |n.Keys| == |n'.Keys|
    requires StorageShape(s, nameLen, count, keyLen, valueLen) && StorageShape(s', nameLen, count, keyLen, valueLen)
    requires nameLen > 0 && keyLen + valueLen > 0
    requires StatePreimage(b, n, s) == StatePreimage(b', n', s')
    ensures b == b' && n == n' && s == s'
  {
    hide ColumnBytes, StorageBytes, OfLength, StorageShape;
    ColumnLength(b, len);
    ColumnLength(b', len);
    ColumnLength(n, nonceLen);
    ColumnLength(n', nonceLen);
    var whole := StatePreimage(b, n, s);
    var i := |ColumnBytes(b)|;
    var j := i + |ColumnBytes(n)|;
    assert whole[..i] == ColumnBytes(b) && whole[i..j] == ColumnBytes(n) && whole[j..] == StorageBytes(s);
    assert whole[..i] == ColumnBytes(b') && whole[i..j] == ColumnBytes(n') && whole[j..] == StorageBytes(s');
    ColumnBinds(b, b', len);
    ColumnBinds(n, n', nonceLen);
    StorageBinds(s, s', nameLen, count, keyLen, valueLen);
  }
}
