/**
 What the state hash says about a ledger: account names are written without a separator, so that
 the hash determines the balances if and only if there are not two different name lengths.
 */
module StateBinding {
  import opened Bytes
  import opened Canonical
  import opened Transactions
  import opened WorldState
  import opened StateEncoding

  /** Names of the given lengths, in characters that take one byte each. */
  ghost predicate NamesIn(keys: set<string>, lengths: set<nat>) {
    forall k | k in keys :: |k| in lengths && forall i | 0 <= i < |k| :: k[i] as int < 256
  }

  /** No two different lengths, the empty name aside. */
  ghost predicate OneLength(lengths: set<nat>) {
    forall a, b | a in lengths && b in lengths && a > 0 && b > 0 :: a == b
  }

  // ---------- two lengths: one text, two readings ----------

  /** Two entries read from a text: a name, eight bytes, another name, eight bytes. */
  function Reading(t: string, p: nat, q: nat): Column
    requires |t| == p + q + 16
  {
    map[t[..p] := Number(t[p..p + 8]), t[p + 8..p + 8 + q] := Number(t[p + 8 + q..])]
  }

  function Number(t: string): U64
    requires |t| == 8
  {
    NumberFits(t);
    FromLittleEndian(Utf8(t))
  }

  lemma NumberFits(t: string)
    requires |t| == 8
    ensures FromLittleEndian(Utf8(t)) <= U64_MAX
  {
    hide Utf8;
    FromLittleEndianRoundTrip(Utf8(t));
    WordSizes();
  }

  lemma {:induction false} NumberEncodes(t: string)
    requires |t| == 8
    ensures LittleEndian(Number(t), 8) == Utf8(t)
  {
    hide Utf8, LittleEndian;
    FromLittleEndianRoundTrip(Utf8(t));
  }

  lemma {:induction false} TwoNames(x: string, y: string)
    requires x != [] && y != [] && x[0] < y[0]
    ensures Names({x, y}) == [x, y]
  {
    assert Codes(x)[0] < Codes(y)[0];
    assert LexLess(Codes(x), Codes(y));
    hide LexLess, Codes;
    assert x in [x, y] && y in [x, y];
    SortingIsUnique(Codes, Names({x, y}), [x, y], {x, y});
  }

  lemma {:induction false} TwoEntries(m: Column, x: string, y: string)
    requires m.Keys == {x, y} && x != [] && y != [] && x[0] < y[0]
    ensures ColumnBytes(m) == Entry(x, m[x]) + Entry(y, m[y])
  {
    hide Entry, Concat;
    TwoNames(x, y);
    EmptyConcat();
    var e, f := Entry(x, m[x]), Entry(y, m[y]);
    assert Entries([x, y], m) == [] + [e] + [f];
    ConcatAppend([], e);
    ConcatAppend([] + [e], f);
  }

  lemma {:induction false} Utf8Append(s: string, t: string)
    ensures Utf8(s + t) == Utf8(s) + Utf8(t)
  {
  }

  /** The bytes of a reading are the text it was read from. */
  lemma {:induction false} ReadingEncodes(t: string, p: nat, q: nat)
    requires p > 0 && q > 0 && |t| == p + q + 16 && t[0] < t[p + 8]
    ensures ColumnBytes(Reading(t, p, q)) == Utf8(t)
  {
    hide Utf8, LittleEndian, ColumnBytes, Number, Reading;
    var x, y := t[..p], t[p + 8..p + 8 + q];
    var v, u := t[p..p + 8], t[p + 8 + q..];
    var m := Reading(t, p, q);
    ReadingIs(t, p, q);
    TwoEntries(m, x, y);
    NumberEncodes(v);
    NumberEncodes(u);
    TextParts(t, p, q);
  }

  lemma ReadingIs(t: string, p: nat, q: nat)
    requires p > 0 && q > 0 && |t| == p + q + 16 && t[0] < t[p + 8]
    ensures var m, x, y := Reading(t, p, q), t[..p], t[p + 8..p + 8 + q];
            && x[0] < y[0] && m.Keys == {x, y}
            && m[x] == Number(t[p..p + 8]) && m[y] == Number(t[p + 8 + q..])
  {
    hide Number;
    assert t[..p][0] == t[0] && t[p + 8..p + 8 + q][0] == t[p + 8];
  }

  lemma {:induction false} Utf8Split(t: string, i: nat)
    requires i <= |t|
    ensures Utf8(t) == Utf8(t[..i]) + Utf8(t[i..])
  {
    hide Utf8;
    assert t == t[..i] + t[i..];
    Utf8Append(t[..i], t[i..]);
  }

  lemma {:induction false} TextParts(t: string, p: nat, q: nat)
    requires |t| == p + q + 16
    ensures Utf8(t) == (Utf8(t[..p]) + Utf8(t[p..p + 8])) + (Utf8(t[p + 8..p + 8 + q]) + Utf8(t[p + 8 + q..]))
  {
    hide Utf8;
    var a, b := t[..p + 8], t[p + 8..];
    Utf8Split(t, p + 8);
    Utf8Split(a, p);
    Utf8Split(b, q);
    assert a[..p] == t[..p] && a[p..] == t[p..p + 8] && b[..q] == t[p + 8..p + 8 + q] && b[q..] == t[p + 8 + q..];
  }

  /** Zeros, with a one at the two places where a second name may begin. */
  function Text(a: nat, b: nat): (t: string)
    ensures |t| == a + b + 16
    ensures forall i | 0 <= i < |t| :: t[i] == if i == a + 8 || i == b + 8 then '1' else '0'
  {
    seq(a + b + 16, i => if i == a + 8 || i == b + 8 then '1' else '0')
  }

  ghost predicate Binary(k: string) {
    forall i | 0 <= i < |k| :: k[i] == '0' || k[i] == '1'
  }

  /**
   For any two different positive lengths, one text reads as a short name then a long one and as a
   long name then a short one: two different columns of two accounts each, with one preimage.
   */
  lemma {:induction false} LengthsAreNotSeparated(a: nat, b: nat)
    requires 0 < a < b
    ensures var m, n := Reading(Text(a, b), a, b), Reading(Text(a, b), b, a);
            && m != n && StatePreimage(m, map[], map[]) == StatePreimage(n, map[], map[])
            && NamesIn(m.Keys, {a, b}) && NamesIn(n.Keys, {a, b})
  {
    hide *;
    var t := Text(a, b);
    var m, n := Reading(t, a, b), Reading(t, b, a);
    TextIsUsable(a, b);
    ReadingsDiffer(t, a, b);
    ReadingEncodes(t, a, b);
    ReadingEncodes(t, b, a);
    SamePreimage(m, n);
    ReadingNames(t, a, b);
    ReadingNames(t, b, a);
    assert {b, a} == {a, b};
  }

  lemma ReadingsDiffer(t: string, a: nat, b: nat)
    requires 0 < a < b && |t| == a + b + 16 && t[0] < t[a + 8] && t[0] < t[b + 8]
    ensures Reading(t, a, b) != Reading(t, b, a)
  {
    hide Reading;
    ReadingIs(t, a, b);
    ReadingIs(t, b, a);
    var x := t[..a];
    assert x in Reading(t, a, b);
    assert x[0] == t[0] && t[b + 8..b + 8 + a][0] == t[b + 8];
  }

  lemma ReadingNames(t: string, p: nat, q: nat)
    requires |t| == p + q + 16 && Binary(t)
    ensures NamesIn(Reading(t, p, q).Keys, {p, q}) && forall k | k in Reading(t, p, q) :: Binary(k)
  {
    hide Number;
  }

  // ---------- one length ----------

  lemma {:induction false} EmptyNameFirst(keys: set<string>)
    requires "" in keys
    ensures Names(keys) == [""] + Names(keys - {""})
  {
    var rest := Names(keys - {""});
    var ks := [""] + rest;
    forall i, j | 0 <= i < j < |ks|
      ensures LexLess(Codes(ks[i]), Codes(ks[j]))
    {
      assert ks[j] == rest[j - 1] && ks[j] in rest;
    }
    hide LexLess;
    forall k
      ensures k in ks <==> k in keys
    {
      assert k in ks <==> k == "" || k in rest;
    }
    SortingIsUnique(Codes, Names(keys), ks, keys);
  }

  lemma SameEntries(ks: seq<string>, m: Column, n: Column)
    requires forall k | k in ks :: k in m && k in n && m[k] == n[k]
    ensures Entries(ks, m) == Entries(ks, n)
  {
    hide Entry;
    assert forall i | 0 <= i < |ks| :: ks[i] in ks;
  }

  /** An account without a name comes first and adds eight bytes. */
  lemma {:induction false} EmptyNameEntry(m: Column)
    requires "" in m
    ensures ColumnBytes(m) == LittleEndian(m[""], 8) + ColumnBytes(m - {""})
  {
    hide Concat, Entry, LittleEndian, SortedBy, Entries;
    var rest := m - {""};
    assert rest.Keys == m.Keys - {""};
    EmptyNameFirst(m.Keys);
    var ks := Names(rest.Keys);
    SameEntries(ks, m, rest);
    EntriesPrepend("", ks, m);
    ConcatPrepend(Entry("", m[""]), Entries(ks, m));
    EmptyNameIs(m[""]);
  }

  lemma EmptyNameIs(v: U64)
    ensures Entry("", v) == LittleEndian(v, 8)
  {
    hide LittleEndian;
  }

  lemma {:induction false} EntriesPrepend(k: string, ks: seq<string>, m: Column)
    requires k in m && forall x | x in ks :: x in m
    ensures Entries([k] + ks, m) == [Entry(k, m[k])] + Entries(ks, m)
  {
    hide Entry, Entries;
    var whole := [k] + ks;
    forall i | 0 <= i < |whole|
      ensures Entries(whole, m)[i] == ([Entry(k, m[k])] + Entries(ks, m))[i]
    {
      if i > 0 {
        assert whole[i] == ks[i - 1];
      }
    }
  }

  lemma RestOfLength(m: Column, len: nat)
    requires NamesIn(m.Keys, {0, len})
    ensures OfLength((m - {""}).Keys, len)
  {
  }

  lemma {:induction false} NotEightApart(x: nat, y: nat, c: nat)
    requires c > 8
    ensures x * c + 8 != y * c
  {
    if x < y {
      Multiples(x + 1, y, c);
      assert (x + 1) * c == x * c + c;
    } else {
      Multiples(y, x, c);
    }
  }

  lemma Multiples(x: nat, y: nat, c: nat)
    requires x <= y
    ensures x * c <= y * c
  {
  }

  lemma {:induction false} EmptyNameShows(m: Column, n: Column, len: nat)
    requires len > 0 && NamesIn(m.Keys, {0, len}) && NamesIn(n.Keys, {0, len}) && "" in m && "" !in n
    ensures ColumnBytes(m) != ColumnBytes(n)
  {
    hide *;
    RestOfLength(m, len);
    RestOfLength(n, len);
    assert n - {""} == n;
    EmptyNameEntry(m);
    var x, y, c := |(m - {""}).Keys|, |n.Keys|, len + 8;
    assert |ColumnBytes(m)| == x * c + 8 by { ColumnLength(m - {""}, len); }
    assert |ColumnBytes(n)| == y * c by { ColumnLength(n, len); }
    NotEightApart(x, y, c);
  }

  lemma {:induction false} OneLengthBinds(m: Column, n: Column, len: nat)
    requires len > 0 && NamesIn(m.Keys, {0, len}) && NamesIn(n.Keys, {0, len}) && ColumnBytes(m) == ColumnBytes(n)
    ensures m == n
  {
    hide ColumnBytes, LittleEndian, NamesIn, OfLength;
    if "" in m && "" !in n {
      EmptyNameShows(m, n, len);
    } else if "" in n && "" !in m {
      EmptyNameShows(n, m, len);
    } else {
      RestOfLength(m, len);
      RestOfLength(n, len);
      var r, s := m - {""}, n - {""};
      if "" in m {
        EmptyNameEntry(m);
        EmptyNameEntry(n);
        var whole := ColumnBytes(m);
        assert whole[..8] == LittleEndian(m[""], 8) && whole[8..] == ColumnBytes(r);
        assert whole[..8] == LittleEndian(n[""], 8) && whole[8..] == ColumnBytes(s);
        WordSizes();
        WordRecovered(m[""], n[""], 8);
        ColumnBinds(r, s, len);
        assert m == r["" := m[""]] && n == s["" := n[""]];
      } else {
        assert r == m && s == n;
        ColumnBinds(m, n, len);
      }
    }
  }

  lemma OnlyLength(lengths: set<nat>) returns (len: nat)
    requires OneLength(lengths)
    ensures len > 0 && lengths <= {0, len}
  {
    if a: nat :| a in lengths && a > 0 {
      len := a;
    } else {
      len := 1;
    }
  }

  /** Some two different columns with names of these lengths have one preimage. */
  ghost predicate Confusable(lengths: set<nat>) {
    exists m: Column, n: Column :: NamesIn(m.Keys, lengths) && NamesIn(n.Keys, lengths) && Confused(m, n)
  }

  ghost predicate Confused(m: Column, n: Column) {
    m != n && StatePreimage(m, map[], map[]) == StatePreimage(n, map[], map[])
  }

  /** Balances are determined by the preimage if and only if their names have at most one positive length. */
  lemma {:induction false} BalancesBindIff(lengths: set<nat>)
    ensures !Confusable(lengths) <==> OneLength(lengths)
  {
    hide StatePreimage, ColumnBytes, Reading, Text;
    if OneLength(lengths) {
      var len := OnlyLength(lengths);
      forall m: Column, n: Column | NamesIn(m.Keys, lengths) && NamesIn(n.Keys, lengths)
        ensures !Confused(m, n)
      {
        SamePreimage(m, n);
        if ColumnBytes(m) == ColumnBytes(n) {
          OneLengthBinds(m, n, len);
        }
      }
    } else {
      var a, b := TwoDifferent(lengths);
      LengthsAreNotSeparated(a, b);
      var m, n := Reading(Text(a, b), a, b), Reading(Text(a, b), b, a);
      assert Confused(m, n);
    }
  }

  // ---------- ledgers that transactions build ----------

  /** The account id whose hexadecimal text is the given name of zeros and ones. */
  function IdOf(name: string): Bytes
    requires |name| % 2 == 0
  {
    if name == [] then [] else [HexPair(Bit(name[0]), Bit(name[1]))] + IdOf(name[2..])
  }

  function Bit(c: char): (b: nat)
    ensures b <= 1
  {
    if c == '1' then 1 else 0
  }

  lemma {:induction false} NameOfId(name: string)
    requires |name| % 2 == 0 && Binary(name)
    ensures HexEncode(IdOf(name)) == name
  {
    if name != [] {
      var rest := name[2..];
      NameOfId(rest);
      BitsEncoded(name[0], name[1], IdOf(rest));
      hide HexEncode, HexPair, Bit;
      assert name == [name[0], name[1]] + rest;
    }
  }

  lemma BitsEncoded(c: char, d: char, rest: Bytes)
    requires (c == '0' || c == '1') && (d == '0' || d == '1')
    ensures HexEncode([HexPair(Bit(c), Bit(d))] + rest) == [c, d] + HexEncode(rest)
  {
    assert ([HexPair(Bit(c), Bit(d))] + rest)[1..] == rest;
    assert HexDigit(0) == '0' && HexDigit(1) == '1';
  }

  const NO_ID: Uuid := [0, 0, 0, 0, 0, 0, 0, 0, 0, 0, 0, 0, 0, 0, 0, 0]

  /** A delivery proof that credits the account of that name. */
  function Delivery(name: string, amount: U64): Transaction
    requires |name| % 2 == 0
  {
    Transaction(NO_ID, SubmitDeliveryProof(Ok(SubmitDeliveryProofTx(IdOf(name), [], amount))), 0, [])
  }

  lemma {:induction false} DeliveryCredits(h: Digest, w: World, name: string, amount: U64)
    requires |name| % 2 == 0 && Binary(name) && name !in w.balances
    ensures Apply(h, w, Delivery(name, amount)).balances == w.balances[name := amount]
  {
    hide StateHash, IdOf, HexEncode;
    NameOfId(name);
  }

  /** Two delivery proofs build any ledger of two such accounts. */
  lemma {:induction false} DeliveriesBuild(h: Digest, m: Column, x: string, y: string)
    requires m.Keys == {x, y} && x != y && |x| % 2 == 0 && |y| % 2 == 0 && Binary(x) && Binary(y)
    ensures Run(h, NEW_WORLD, [Delivery(x, m[x]), Delivery(y, m[y])]).balances == m
  {
    hide Apply, Delivery;
    var a, b := Delivery(x, m[x]), Delivery(y, m[y]);
    DeliveryCredits(h, NEW_WORLD, x, m[x]);
    var w := Apply(h, NEW_WORLD, a);
    DeliveryCredits(h, w, y, m[y]);
    assert [a, b][1..] == [b] && [b][1..] == [];
    assert Run(h, NEW_WORLD, [a, b]) == Run(h, w, [b]);
    assert Run(h, w, [b]) == Run(h, Apply(h, w, b), []) == Apply(h, w, b);
    assert m == map[x := m[x]][y := m[y]];
  }

  function Doubled(lengths: set<nat>): set<nat> {
    set n | n in lengths :: 2 * n
  }

  /** All accounts of the ledger have ids of the given lengths, in bytes. */
  ghost predicate NamedBy(w: World, idLengths: set<nat>) {
    NamesIn(w.balances.Keys, Doubled(idLengths))
  }

  ghost function LedgerPreimage(w: World): Bytes {
    StatePreimage(w.balances, w.nonces, w.storage)
  }

  /**
   Two ledgers that transactions built from nothing, with ids of at most one positive length, have
   the same state hash exactly when they have the same balances; stakes and reputation may differ.
   */
  lemma {:induction false} StateHashBinds(h: Digest, txs: seq<Transaction>, txs': seq<Transaction>, idLengths: set<nat>)
    requires OneLength(idLengths)
    requires var w, w' := Run(h, NEW_WORLD, txs), Run(h, NEW_WORLD, txs');
             NamedBy(w, idLengths) && NamedBy(w', idLengths) && NoCollision(h, {LedgerPreimage(w), LedgerPreimage(w')})
    ensures var w, w' := Run(h, NEW_WORLD, txs), Run(h, NEW_WORLD, txs');
            StateHash(h, w) == StateHash(h, w') <==> w.balances == w'.balances
  {
    hide Run, StatePreimage, NamesIn;
    AccountsPersist(h, NEW_WORLD, txs);
    AccountsPersist(h, NEW_WORLD, txs');
    var w, w' := Run(h, NEW_WORLD, txs), Run(h, NEW_WORLD, txs');
    assert OneLength(Doubled(idLengths));
    BalancesBindIff(Doubled(idLengths));
    assert !Confused(w.balances, w'.balances);
  }

  /** Two histories with different balances and one state hash, through no fault of the digest. */
  ghost predicate Indistinguishable(h: Digest, txs: seq<Transaction>, txs': seq<Transaction>, idLengths: set<nat>) {
    var w, w' := Run(h, NEW_WORLD, txs), Run(h, NEW_WORLD, txs');
    && NamedBy(w, idLengths) && NamedBy(w', idLengths)
    && NoCollision(h, {LedgerPreimage(w), LedgerPreimage(w')})
    && StateHash(h, w) == StateHash(h, w') && w.balances != w'.balances
  }

  lemma {:induction false} SamePreimageIndistinguishable(h: Digest, txs: seq<Transaction>, txs': seq<Transaction>, idLengths: set<nat>)
    requires var m, n := Run(h, NEW_WORLD, txs).balances, Run(h, NEW_WORLD, txs').balances;
             Confused(m, n) && NamesIn(m.Keys, Doubled(idLengths)) && NamesIn(n.Keys, Doubled(idLengths))
    ensures Indistinguishable(h, txs, txs', idLengths)
  {
    hide Run, StatePreimage, NamesIn;
    AccountsPersist(h, NEW_WORLD, txs);
    AccountsPersist(h, NEW_WORLD, txs');
  }

  /** Two different id lengths suffice: two histories of two delivery proofs each. */
  lemma {:induction false} TwoLengthsConfuse(h: Digest, a: nat, b: nat) returns (txs: seq<Transaction>, txs': seq<Transaction>)
    requires 0 < a < b
    ensures Indistinguishable(h, txs, txs', {a, b})
  {
    hide *;
    var p, q := 2 * a, 2 * b;
    var t := Text(p, q);
    TextIsUsable(p, q);
    LengthsAreNotSeparated(p, q);
    BothDoubled(a, b);
    txs := HistoryOf(h, t, p, q);
    txs' := HistoryOf(h, t, q, p);
    ConfusedIs(Reading(t, p, q), Reading(t, q, p));
    SamePreimageIndistinguishable(h, txs, txs', {a, b});
  }

  lemma TextIsUsable(p: nat, q: nat)
    requires 0 < p < q
    ensures var t := Text(p, q); t[0] < t[p + 8] && t[0] < t[q + 8] && Binary(t)
  {
  }

  lemma BothDoubled(a: nat, b: nat)
    ensures Doubled({a, b}) == {2 * a, 2 * b}
  {
    assert a in {a, b} && b in {a, b};
  }

  lemma ConfusedIs(m: Column, n: Column)
    requires m != n && StatePreimage(m, map[], map[]) == StatePreimage(n, map[], map[])
    ensures Confused(m, n)
  {
    hide StatePreimage;
  }

  lemma {:induction false} HistoryOf(h: Digest, t: string, p: nat, q: nat) returns (txs: seq<Transaction>)
    requires p > 0 && q > 0 && p % 2 == 0 && q % 2 == 0 && |t| == p + q + 16 && t[0] < t[p + 8] && Binary(t)
    ensures Run(h, NEW_WORLD, txs).balances == Reading(t, p, q)
  {
    var x, y := t[..p], t[p + 8..p + 8 + q];
    assert Binary(x) && Binary(y);
    hide Reading, Run, Delivery, Binary;
    var m := Reading(t, p, q);
    ReadingIs(t, p, q);
    txs := [Delivery(x, m[x]), Delivery(y, m[y])];
    DeliveriesBuild(h, m, x, y);
  }

  lemma MoreLengths(h: Digest, txs: seq<Transaction>, txs': seq<Transaction>, few: set<nat>, many: set<nat>)
    requires Indistinguishable(h, txs, txs', few) && few <= many
    ensures Indistinguishable(h, txs, txs', many)
  {
    hide Run, StatePreimage, NoCollision;
  }

  /**
   Over all histories from the empty ledger whose accounts have ids of the given lengths, the state
   hash determines the balances if and only if there are no two different positive lengths.
   */
  lemma {:induction false} StateHashBindsIff(h: Digest, idLengths: set<nat>)
    ensures (exists txs, txs' :: Indistinguishable(h, txs, txs', idLengths)) <==> !OneLength(idLengths)
  {
    hide Indistinguishable;
    if OneLength(idLengths) {
      forall txs, txs'
        ensures !Indistinguishable(h, txs, txs', idLengths)
      {
        Distinguishable(h, txs, txs', idLengths);
      }
    } else {
      var a, b := TwoDifferent(idLengths);
      var txs, txs' := TwoLengthsConfuse(h, a, b);
      MoreLengths(h, txs, txs', {a, b}, idLengths);
    }
  }

  lemma TwoDifferent(lengths: set<nat>) returns (a: nat, b: nat)
    requires !OneLength(lengths)
    ensures 0 < a < b && a in lengths && b in lengths
  {
    a, b :| a in lengths && b in lengths && 0 < a < b;
  }

  lemma Distinguishable(h: Digest, txs: seq<Transaction>, txs': seq<Transaction>, idLengths: set<nat>)
    requires OneLength(idLengths)
    ensures !Indistinguishable(h, txs, txs', idLengths)
  {
    hide Run, StateHash, NamedBy, LedgerPreimage, NoCollision;
    var w, w' := Run(h, NEW_WORLD, txs), Run(h, NEW_WORLD, txs');
    if NamedBy(w, idLengths) && NamedBy(w', idLengths) && NoCollision(h, {LedgerPreimage(w), LedgerPreimage(w')}) {
      StateHashBinds(h, txs, txs', idLengths);
    }
  }
}
