/**
 The currency-chain block cache (`currency_chain_block_sync.rs`): eviction, fork choice and
 reorganisation.  RPC answers and validator stakes are arguments of each operation.
 */
module BlockSync {
  import opened Bytes

  datatype Header = Header(number: U64, hash: string, parentHash: string, proposer: string)

  datatype Block = Block(header: Header)

  /** An RPC answer; `fetch_block_rpc` puts the requested number into the header itself. */
  datatype RpcBlock = RpcBlock(hash: string, parentHash: string, proposer: string)

  type Fetch = U64 -> Option<RpcBlock>

  type Stakes = string -> U64

  type Cache = map<U64, Block>

  datatype SyncStatus = Idle | Syncing | Live | Reconnecting | ResolvingFork

  function FetchBlock(fetch: Fetch, n: U64): (b: Option<Block>)
    ensures b.Some? <==> fetch(n).Some?
    ensures b.Some? ==>
      var h, answer := b.value.header, fetch(n).value;
      h.number == n && h.hash == answer.hash && h.parentHash == answer.parentHash && h.proposer == answer.proposer
  {
    match fetch(n)
    case None => None
    case Some(b) => Some(Block(Header(n, b.hash, b.parentHash, b.proposer)))
  }

  /** `block_number - 1` on `u64`. */
  function Pred(n: U64): U64 {
    if n == 0 then U64_MAX else n - 1
  }

  /** `common_ancestor + 1` on `u64`. */
  function Succ(n: U64): U64 {
    if n == U64_MAX then 0 else n + 1
  }

  // ---------- eviction ----------

  lemma {:induction false} MinExists(keys: set<U64>) returns (k: U64)
    requires keys != {}
    ensures k in keys && forall j | j in keys :: k <= j
    decreases keys
  {
    k :| k in keys;
    if keys != {k} {
      var rest := keys - {k};
      var m := MinExists(rest);
      assert keys == rest + {k};
      if m < k {
        k := m;
      }
    }
  }

  ghost function MinKey(m: Cache): (k: U64)
    requires m.Keys != {}
    ensures k in m && forall j | j in m :: k <= j
  {
    assert exists k | k in m.Keys :: forall j | j in m.Keys :: k <= j by {
      var k := MinExists(m.Keys);
    }
    var k :| k in m.Keys && forall j | j in m.Keys :: k <= j;
    k
  }

  /** The `n` entries with the greatest numbers. */
  ghost function Newest(m: Cache, n: nat): Cache
    decreases |m.Keys|
  {
    if |m.Keys| <= n then m
    else
      assert (m - {MinKey(m)}).Keys == m.Keys - {MinKey(m)};
      Newest(m - {MinKey(m)}, n)
  }

  lemma {:induction false} NewestKeeps(m: Cache, n: nat)
    ensures Newest(m, n).Keys <= m.Keys
    ensures forall k | k in Newest(m, n) :: Newest(m, n)[k] == m[k]
    ensures |Newest(m, n).Keys| == Min(|m.Keys|, n)
    ensures forall j, k | j in m && j !in Newest(m, n) && k in Newest(m, n) :: j < k
    decreases |m.Keys|
  {
    if |m.Keys| > n {
      var min := MinKey(m);
      assert (m - {min}).Keys == m.Keys - {min};
      NewestKeeps(m - {min}, n);
    }
  }

  /** So many passes of the eviction loop, which does nothing more once the cache is empty. */
  ghost function Evicted(m: Cache, passes: nat): Cache {
    if passes == 0 || m.Keys == {} then m else Evicted(m - {MinKey(m)}, passes - 1)
  }

  /** The eviction loop ends if and only if the cache may hold at least one block. */
  lemma {:induction false} EvictionEndsIff(m: Cache, maxCacheSize: nat)
    ensures (exists passes: nat :: |Evicted(m, passes).Keys| < maxCacheSize) <==> maxCacheSize >= 1
  {
    if maxCacheSize >= 1 {
      AllEvicted(m, |m.Keys|);
    }
  }

  lemma {:induction false} AllEvicted(m: Cache, n: nat)
    requires n == |m.Keys|
    ensures |Evicted(m, n).Keys| == 0
  {
    if n > 0 {
      EvictOne(m);
      EvictedUnfolds(m, n);
      hide *;
      AllEvicted(m - {MinKey(m)}, n - 1);
    }
  }

  lemma EvictedUnfolds(m: Cache, passes: nat)
    requires passes > 0 && m.Keys != {}
    ensures Evicted(m, passes) == Evicted(m - {MinKey(m)}, passes - 1)
  {
    hide MinKey;
  }

  lemma EvictOne(m: Cache)
    requires m.Keys != {}
    ensures |(m - {MinKey(m)}).Keys| == |m.Keys| - 1
  {
    assert (m - {MinKey(m)}).Keys == m.Keys - {MinKey(m)};
  }

  ghost predicate KeyedByNumber(m: Cache) {
    forall k | k in m :: m[k].header.number == k
  }

  // ---------- fork choice ----------

  ghost function StakeSum(stakes: Stakes, headers: seq<Header>): nat {
    if headers == [] then 0
    else StakeSum(stakes, headers[..|headers| - 1]) + stakes(headers[|headers| - 1].proposer)
  }

  ghost function Weight(stakes: Stakes, headers: seq<Header>): nat {
    Min(StakeSum(stakes, headers), U64_MAX)
  }

  /** `calculate_chain_stake_weight`: saturating addition arrives at the capped exact sum. */
  method ChainStakeWeight(stakes: Stakes, headers: seq<Header>) returns (total: U64)
    ensures total == Weight(stakes, headers)
  {
    total := 0;
    for i := 0 to |headers|
      invariant total == Weight(stakes, headers[..i])
    {
      assert headers[..i + 1][..i] == headers[..i];
      total := SaturatingAdd(total, stakes(headers[i].proposer), U64_MAX);
    }
    assert headers[..|headers|] == headers;
  }

  /** Lexicographic `<=` on strings. */
  function StringLe(a: string, b: string): bool {
    if a == "" then true
    else if b == "" then false
    else if a[0] != b[0] then a[0] < b[0]
    else StringLe(a[1..], b[1..])
  }

  lemma {:induction false} StringLeIsTotalOrder(a: string, b: string)
    ensures StringLe(a, b) || StringLe(b, a)
    ensures StringLe(a, b) && StringLe(b, a) <==> a == b
  {
    if a != "" && b != "" && a[0] == b[0] {
      StringLeIsTotalOrder(a[1..], b[1..]);
      assert a == [a[0]] + a[1..] && b == [b[0]] + b[1..];
    }
  }

  /** The texts agree up to `i`, where the first ends or has the smaller character. */
  ghost predicate SmallerAt(a: string, b: string, i: nat) {
    i <= |a| && i < |b| && a[..i] == b[..i] && (i == |a| || a[i] < b[i])
  }

  /** Alphabetical order, by the first character in which the texts differ. */
  ghost predicate ComesBefore(a: string, b: string) {
    exists i: nat :: SmallerAt(a, b, i)
  }

  lemma {:induction false} StringLeMeans(a: string, b: string)
    ensures StringLe(a, b) <==> a == b || ComesBefore(a, b)
  {
    if a == "" {
      if b != "" {
        assert SmallerAt(a, b, 0);
      }
    } else if b != "" {
      if a[0] < b[0] {
        assert SmallerAt(a, b, 0);
      } else if a[0] == b[0] {
        StringLeMeans(a[1..], b[1..]);
        assert a == [a[0]] + a[1..] && b == [b[0]] + b[1..];
        if ComesBefore(a[1..], b[1..]) {
          var i: nat :| SmallerAt(a[1..], b[1..], i);
          assert a[..i + 1] == [a[0]] + a[1..][..i] && b[..i + 1] == [b[0]] + b[1..][..i];
          assert SmallerAt(a, b, i + 1);
        }
        if ComesBefore(a, b) {
          var i: nat :| SmallerAt(a, b, i);
          LaterDifference(a, b, i);
        }
      } else if ComesBefore(a, b) {
        var i: nat :| SmallerAt(a, b, i);
        LaterDifference(a, b, i);
      }
    }
  }

  lemma LaterDifference(a: string, b: string, i: nat)
    requires SmallerAt(a, b, i) && a != "" && b != ""
    ensures a[0] <= b[0]
    ensures a[0] == b[0] ==> i > 0 && SmallerAt(a[1..], b[1..], i - 1)
  {
    if i > 0 {
      assert a[..i][0] == b[..i][0];
      assert a[1..][..i - 1] == a[..i][1..] && b[1..][..i - 1] == b[..i][1..];
    }
  }

  /** The branch decision of `resolve_fork`. */
  function AWins(weightA: nat, weightB: nat, a: seq<Header>, b: seq<Header>): bool {
    if weightA == weightB then
      if a != [] && b != [] then StringLe(a[0].hash, b[0].hash)
      else a != [] || b == []
    else weightA >= weightB
  }

  ghost predicate ChoosesA(stakes: Stakes, a: seq<Header>, b: seq<Header>) {
    AWins(Weight(stakes, a), Weight(stakes, b), a, b)
  }

  ghost predicate FullTie(stakes: Stakes, a: seq<Header>, b: seq<Header>) {
    && Weight(stakes, a) == Weight(stakes, b)
    && (a == [] <==> b == [])
    && (a != [] ==> a[0].hash == b[0].hash)
  }

  lemma {:induction false} StakeSumAppend(stakes: Stakes, a: seq<Header>, b: seq<Header>)
    ensures StakeSum(stakes, a + b) == StakeSum(stakes, a) + StakeSum(stakes, b)
  {
    if b == [] {
      assert a + b == a;
    } else {
      var n := |b| - 1;
      assert (a + b)[..|a| + n] == a + b[..n];
      StakeSumAppend(stakes, a, b[..n]);
    }
  }

  /** The weight does not depend on the order of the headers. */
  lemma {:induction false} WeightIgnoresOrder(stakes: Stakes, a: seq<Header>, b: seq<Header>)
    requires multiset(a) == multiset(b)
    ensures StakeSum(stakes, a) == StakeSum(stakes, b)
    ensures Weight(stakes, a) == Weight(stakes, b)
    decreases |a|
  {
    if a == [] {
      assert multiset(b) == multiset{};
      assert b == [];
    } else {
      hide StakeSum;
      var n := |a| - 1;
      assert a[n] in multiset(b);
      var i :| 0 <= i < |b| && b[i] == a[n];
      TakeOut(a, n);
      TakeOut(b, i);
      assert a[..n] + a[n + 1..] == a[..n];
      WeightIgnoresOrder(stakes, a[..n], b[..i] + b[i + 1..]);
      StakeTakenOut(stakes, a, n);
      StakeTakenOut(stakes, b, i);
    }
  }

  lemma TakeOut<T>(s: seq<T>, i: nat)
    requires i < |s|
    ensures multiset(s[..i] + s[i + 1..]) == multiset(s) - multiset{s[i]}
  {
    assert s == s[..i] + ([s[i]] + s[i + 1..]);
  }

  lemma {:induction false} StakeTakenOut(stakes: Stakes, s: seq<Header>, i: nat)
    requires i < |s|
    ensures StakeSum(stakes, s) == StakeSum(stakes, s[..i] + s[i + 1..]) + stakes(s[i].proposer)
  {
    var x := s[i];
    assert StakeSum(stakes, [x]) == stakes(x.proposer) by { assert [x][..0] == []; }
    hide StakeSum;
    assert s == s[..i] + ([x] + s[i + 1..]);
    StakeSumAppend(stakes, s[..i], [x] + s[i + 1..]);
    StakeSumAppend(stakes, [x], s[i + 1..]);
    StakeSumAppend(stakes, s[..i], s[i + 1..]);
  }

  /** Extending a branch never lowers its weight. */
  lemma {:induction false} WeightIsMonotone(stakes: Stakes, a: seq<Header>, b: seq<Header>)
    ensures Weight(stakes, a) <= Weight(stakes, a + b)
  {
    StakeSumAppend(stakes, a, b);
  }

  /**
   A conflicting block beats the cached branch if its proposer's stake is the greater, loses if it
   is the smaller, and on equal stake wins over no branch, or if its hash comes no later.
   */
  ghost predicate RightlyKept(stakes: Stakes, conflicting: Header, branch: seq<Header>, keep: bool) {
    var own, other := stakes(conflicting.proposer), Min(StakeSum(stakes, branch), 0xFFFF_FFFF_FFFF_FFFF);
    && (own > other ==> keep)
    && (own < other ==> !keep)
    && (own == other && branch == [] ==> keep)
    && (own == other && branch != [] ==>
          (keep <==> conflicting.hash == branch[0].hash || ComesBefore(conflicting.hash, branch[0].hash)))
  }

  lemma {:induction false} HeavierBranchWins(stakes: Stakes, conflicting: Header, branch: seq<Header>)
    ensures RightlyKept(stakes, conflicting, branch, ChoosesA(stakes, [conflicting], branch))
  {
    assert [conflicting][..0] == [];
    assert StakeSum(stakes, [conflicting]) == stakes(conflicting.proposer);
    hide StakeSum, StringLe;
    if branch != [] {
      StringLeMeans(conflicting.hash, branch[0].hash);
    }
  }

  /** Exchanging the labels A and B picks the same branch exactly when there is no full tie. */
  lemma {:induction false} ChoiceIgnoresLabels(stakes: Stakes, a: seq<Header>, b: seq<Header>)
    ensures (ChoosesA(stakes, a, b) <==> !ChoosesA(stakes, b, a)) <==> !FullTie(stakes, a, b)
  {
    hide Weight, StringLe;
    if a != [] && b != [] {
      StringLeIsTotalOrder(a[0].hash, b[0].hash);
    }
  }

  /** A reorganisation is never onto an empty branch. */
  lemma {:induction false} NeverReorganisesOntoNothing(stakes: Stakes, a: seq<Header>, b: seq<Header>)
    requires !ChoosesA(stakes, a, b)
    ensures b != []
  {
    assert b == [] ==> Weight(stakes, b) == 0;
  }

  // ---------- walking the cache ----------

  /** The headers that `fetch_competing_chain_headers` collects at numbers `low` to `high`, oldest first. */
  function Walk(cache: Cache, low: U64, high: int, parentHash: string): seq<Header>
    requires high <= U64_MAX
    decreases high - low + 1
  {
    if high < low then []
    else if high in cache && (cache[high].header.hash == parentHash || cache[high].header.parentHash == parentHash) then
      Walk(cache, low, high - 1, cache[high].header.parentHash) + [cache[high].header]
    else Walk(cache, low, high - 1, parentHash)
  }

  lemma {:induction false} WalkStaysInCache(cache: Cache, low: U64, high: int, parentHash: string)
    requires high <= U64_MAX && KeyedByNumber(cache)
    ensures forall h | h in Walk(cache, low, high, parentHash) :: low <= h.number <= high && h.number in cache
    decreases high - low + 1
  {
    if high >= low {
      if high in cache && (cache[high].header.hash == parentHash || cache[high].header.parentHash == parentHash) {
        WalkStaysInCache(cache, low, high - 1, cache[high].header.parentHash);
      } else {
        WalkStaysInCache(cache, low, high - 1, parentHash);
      }
    }
  }

  /** The cached block at this number is the one sought, or names the same parent. */
  predicate Matches(cache: Cache, n: U64, sought: string) {
    n in cache && (cache[n].header.hash == sought || cache[n].header.parentHash == sought)
  }

  /** What is sought below a collected header is its parent; at the top it is the given hash. */
  function Sought(headers: seq<Header>, j: int, start: string): string
    requires -1 <= j < |headers|
  {
    if j + 1 < |headers| then headers[j + 1].parentHash else start
  }

  function Above(headers: seq<Header>, j: int, high: int): int
    requires -1 <= j < |headers|
  {
    if j + 1 < |headers| then headers[j + 1].number else high + 1
  }

  /**
   The headers form a branch: each is the cached header with the highest number that matches what
   the one above it seeks, and below the lowest there is no further match.
   */
  ghost predicate IsBranch(cache: Cache, low: U64, high: int, start: string, headers: seq<Header>) {
    && (forall j | 0 <= j < |headers| ::
          var n := headers[j].number;
          && low <= n < Above(headers, j, high) && Matches(cache, n, Sought(headers, j, start)) && cache[n].header == headers[j]
          && forall k: U64 | n < k < Above(headers, j, high) :: !Matches(cache, k, Sought(headers, j, start)))
    && forall k: U64 | low <= k < Above(headers, -1, high) :: !Matches(cache, k, Sought(headers, -1, start))
  }

  lemma {:induction false} WalkIsBranch(cache: Cache, low: U64, high: int, start: string)
    requires high <= U64_MAX && KeyedByNumber(cache)
    ensures IsBranch(cache, low, high, start, Walk(cache, low, high, start))
    decreases high - low + 1
  {
    if high >= low {
      if Matches(cache, high, start) {
        var h := cache[high].header;
        WalkIsBranch(cache, low, high - 1, h.parentHash);
        BranchExtends(cache, low, high, start, Walk(cache, low, high - 1, h.parentHash));
      } else {
        WalkIsBranch(cache, low, high - 1, start);
        BranchStays(cache, low, high, start, Walk(cache, low, high - 1, start));
      }
    }
  }

  lemma {:induction false} BranchExtends(cache: Cache, low: U64, high: U64, start: string, headers: seq<Header>)
    requires low <= high && KeyedByNumber(cache) && Matches(cache, high, start)
    requires IsBranch(cache, low, high - 1, cache[high].header.parentHash, headers)
    ensures IsBranch(cache, low, high, start, headers + [cache[high].header])
  {
    var h := cache[high].header;
    var longer := headers + [h];
    hide Matches, KeyedByNumber;
    assert h.number == high by { KeyIsNumber(cache, high); }
    forall j | -1 <= j < |headers|
      ensures Sought(longer, j, start) == Sought(headers, j, h.parentHash) && Above(longer, j, high) == Above(headers, j, high - 1)
    {
    }
  }

  lemma KeyIsNumber(cache: Cache, n: U64)
    requires KeyedByNumber(cache)
    ensures n in cache ==> cache[n].header.number == n
  {
  }

  lemma {:induction false} BranchStays(cache: Cache, low: U64, high: U64, start: string, headers: seq<Header>)
    requires low <= high && !Matches(cache, high, start) && IsBranch(cache, low, high - 1, start, headers)
    ensures IsBranch(cache, low, high, start, headers)
  {
    hide Matches;
  }

  ghost function NumbersOf(headers: seq<Header>): set<U64> {
    set i | 0 <= i < |headers| :: headers[i].number
  }

  lemma {:induction false} WalkNumbersCached(cache: Cache, low: U64, high: int, parentHash: string)
    requires high <= U64_MAX && KeyedByNumber(cache)
    ensures NumbersOf(Walk(cache, low, high, parentHash)) <= cache.Keys
  {
    hide Walk;
    WalkStaysInCache(cache, low, high, parentHash);
    var headers := Walk(cache, low, high, parentHash);
    assert forall i | 0 <= i < |headers| :: headers[i] in headers;
  }

  /** The cache without the numbers above the ancestor. */
  function Orphaned(cache: Cache, low: U64, high: U64): Cache {
    map k | k in cache && !(low <= k <= high) :: cache[k]
  }

  /** The cache after a reorganisation: orphans gone, every answered header of the branch fetched anew. */
  function Reorganised(cache: Cache, low: U64, high: U64, headers: seq<Header>, fetch: Fetch): Cache {
    if headers == [] then Orphaned(cache, low, high)
    else
      var n := |headers| - 1;
      var before := Reorganised(cache, low, high, headers[..n], fetch);
      var block := FetchBlock(fetch, headers[n].number);
      if block.Some? then before[headers[n].number := block.value] else before
  }

  /** It only ever puts back numbers that it took out. */
  lemma {:induction false} ReorganisedKeys(cache: Cache, low: U64, high: U64, headers: seq<Header>, fetch: Fetch)
    requires NumbersOf(headers) <= cache.Keys
    ensures Reorganised(cache, low, high, headers, fetch).Keys <= cache.Keys
  {
    hide FetchBlock;
    if headers != [] {
      var n := |headers| - 1;
      assert headers[n].number in NumbersOf(headers);
      assert NumbersOf(headers[..n]) <= NumbersOf(headers);
      ReorganisedKeys(cache, low, high, headers[..n], fetch);
    }
  }

  /** What a reorganisation leaves at a number. */
  ghost predicate ReplacedAt(before: Cache, after: Cache, low: U64, high: U64, headers: seq<Header>, fetch: Fetch, k: U64) {
    if k in NumbersOf(headers) && FetchBlock(fetch, k).Some? then k in after && after[k] == FetchBlock(fetch, k).value
    else if low <= k <= high then k !in after
    else (k in after <==> k in before) && (k in before ==> after[k] == before[k])
  }

  lemma {:induction false} ReorganisedIs(cache: Cache, low: U64, high: U64, headers: seq<Header>, fetch: Fetch, k: U64)
    ensures ReplacedAt(cache, Reorganised(cache, low, high, headers, fetch), low, high, headers, fetch, k)
  {
    hide FetchBlock;
    if headers != [] {
      var n := |headers| - 1;
      ReorganisedIs(cache, low, high, headers[..n], fetch, k);
      assert headers == headers[..n] + [headers[n]];
      assert NumbersOf(headers) == NumbersOf(headers[..n]) + {headers[n].number} by {
        assert forall h | h in headers :: h in headers[..n] || h == headers[n];
      }
    }
  }

  function Reversed<T>(s: seq<T>): seq<T> {
    if s == [] then [] else Reversed(s[1..]) + [s[0]]
  }

  lemma {:induction false} ReversedAppend<T>(s: seq<T>, x: T)
    ensures Reversed(s + [x]) == [x] + Reversed(s)
  {
    if s == [] {
      assert [x][1..] == [];
    } else {
      assert (s + [x])[1..] == s[1..] + [x];
      ReversedAppend(s[1..], x);
    }
  }

  /** `find_common_ancestor`: the nearest cached number from `start` down, else 0. */
  function NearestCached(cache: Cache, start: U64): (r: U64)
    ensures r <= start && (r > 0 ==> r in cache)
    ensures forall k: U64 | r < k <= start :: k !in cache
  {
    if start == 0 || start in cache then start else NearestCached(cache, start - 1)
  }

  /** The headers that a conflicting block is weighed against. */
  function CompetingBranch(cache: Cache, conflicting: Block, latestConfirmed: U64): seq<Header> {
    Walk(cache, Succ(NearestCached(cache, Pred(conflicting.header.number))), latestConfirmed, conflicting.header.parentHash)
  }

  /** The conflicting block wins and the cache stays as it is. */
  ghost predicate KeepsCache(cache: Cache, latestConfirmed: U64, conflicting: Block, stakes: Stakes) {
    ChoosesA(stakes, [conflicting.header], CompetingBranch(cache, conflicting, latestConfirmed))
  }

  /** The cache and confirmed height after a conflicting block has been weighed against that branch. */
  ghost function AfterFork(cache: Cache, latestConfirmed: U64, conflicting: Block, stakes: Stakes, fetch: Fetch): (Cache, U64) {
    var branch := CompetingBranch(cache, conflicting, latestConfirmed);
    if KeepsCache(cache, latestConfirmed, conflicting, stakes) || branch == [] then (cache, latestConfirmed)
    else
      (Reorganised(cache, Succ(NearestCached(cache, Pred(conflicting.header.number))), latestConfirmed, branch, fetch),
       branch[|branch| - 1].number)
  }

  /** The cached block at `n` does not name the cached block below it. */
  predicate BrokenLink(cache: Cache, n: U64) {
    n > 1 && n in cache && (n - 1) in cache && cache[n - 1].header.hash != cache[n].header.parentHash
  }

  /** Above `low` and up to `high`, every cached block names the cached block before it. */
  ghost predicate LinkedFrom(cache: Cache, low: int, high: U64) {
    forall m: U64 | low < m <= high && m > 1 && m in cache && m - 1 in cache :: cache[m - 1].header.hash == cache[m].header.parentHash
  }

  /** No link is broken at the last `threshold` confirmed numbers. */
  ghost predicate NoneBroken(cache: Cache, latestConfirmed: U64, threshold: U32) {
    forall n: U64 | n <= latestConfirmed < n + threshold :: !BrokenLink(cache, n)
  }

  /** The highest of these numbers with a broken link. */
  ghost predicate HighestBroken(cache: Cache, latestConfirmed: U64, threshold: U32, n: U64) {
    && n <= latestConfirmed < n + threshold && BrokenLink(cache, n)
    && forall m: U64 | n < m <= latestConfirmed :: !BrokenLink(cache, m)
  }

  /** The resolution of every highest broken link keeps the cache. */
  ghost predicate CheckEnds(cache: Cache, latestConfirmed: U64, threshold: U32, stakes: Stakes) {
    forall n: U64 | HighestBroken(cache, latestConfirmed, threshold, n) ::
      n in cache && KeepsCache(cache, latestConfirmed, cache[n], stakes)
  }

  /** The fork check ends if and only if no recent link is broken or the block at the highest one wins. */
  lemma {:induction false} CheckEndsIff(cache: Cache, latestConfirmed: U64, threshold: U32, stakes: Stakes)
    ensures CheckEnds(cache, latestConfirmed, threshold, stakes) <==>
      || NoneBroken(cache, latestConfirmed, threshold)
      || exists n: U64 :: HighestBroken(cache, latestConfirmed, threshold, n) && n in cache && KeepsCache(cache, latestConfirmed, cache[n], stakes)
  {
    hide KeepsCache, BrokenLink;
    if !NoneBroken(cache, latestConfirmed, threshold) {
      var n: U64 :| n <= latestConfirmed < n + threshold && BrokenLink(cache, n);
      var top := TopBroken(cache, latestConfirmed, threshold, n);
      BrokenIsCached(cache, top);
    }
  }

  lemma BrokenIsCached(cache: Cache, n: U64)
    ensures BrokenLink(cache, n) ==> n in cache
  {
  }

  lemma {:induction false} TopBroken(cache: Cache, latestConfirmed: U64, threshold: U32, n: U64) returns (top: U64)
    requires n <= latestConfirmed < n + threshold && BrokenLink(cache, n)
    ensures HighestBroken(cache, latestConfirmed, threshold, top)
    decreases latestConfirmed - n
  {
    hide BrokenLink;
    if m: U64 :| n < m <= latestConfirmed && BrokenLink(cache, m) {
      top := TopBroken(cache, latestConfirmed, threshold, m);
    } else {
      top := n;
    }
  }

  // ---------- steps as functions ----------

  /** The manager's state; `guards` counts the read guards on the cache that calls in progress hold. */
  datatype Chain = Chain(cache: Cache, latestConfirmed: U64, pending: seq<Block>, guards: nat)

  /** The cached parent is not the one the block names. */
  predicate Disputes(cache: Cache, block: Block) {
    var parent := Pred(block.header.number);
    parent in cache && cache[parent].header.hash != block.header.parentHash
  }

  lemma DisputesMeans(cache: Cache, block: Block)
    ensures var n := block.header.number;
            var parent := if n == 0 then 0xFFFF_FFFF_FFFF_FFFF else n - 1;
            Disputes(cache, block) <==> parent in cache && cache[parent].header.hash != block.header.parentHash
  {
  }

  /** Whether `resolve_fork` gets past the write lock that a reorganisation needs. */
  ghost predicate ForkEnds(n: Chain, block: Block, stakes: Stakes) {
    n.guards == 0 || KeepsCache(n.cache, n.latestConfirmed, block, stakes)
  }

  /** The cache after `add_block_to_cache` has evicted and inserted, or spins on an empty cache of size zero. */
  ghost function Added(maxCacheSize: nat, cache: Cache, block: Block): Cache {
    if maxCacheSize == 0 then map[] else Newest(cache, maxCacheSize - 1)[block.header.number := block]
  }

  /** The state after `process_new_block`, or where that call waits for ever. */
  ghost function Processed(maxCacheSize: nat, n: Chain, block: Block, stakes: Stakes, fetch: Fetch): Chain {
    if Disputes(n.cache, block) && !ForkEnds(n, block, stakes) then n
    else
      var settled := if Disputes(n.cache, block) then AfterFork(n.cache, n.latestConfirmed, block, stakes, fetch)
                     else (n.cache, n.latestConfirmed);
      Chain(if n.guards == 0 then Added(maxCacheSize, settled.0, block) else settled.0, settled.1, n.pending + [block], n.guards)
  }

  /** The state after `check_for_forks`: a call that does not end keeps its guard. */
  ghost function ForkChecked(threshold: U32, n: Chain, stakes: Stakes): Chain {
    if CheckEnds(n.cache, n.latestConfirmed, threshold, stakes) then n else n.(guards := n.guards + 1)
  }

  /** The count of `confirm_pending_blocks`: a saturating difference cut to 32 bits. */
  function Confirmations(latestConfirmed: U64, block: Block): U32 {
    (if latestConfirmed >= block.header.number then latestConfirmed - block.header.number else 0) % U32_MODULUS
  }

  /** How many numbers lie between a block and the confirmed height above it. */
  function Depth(latestConfirmed: U64, n: U64): (d: nat)
    ensures n <= latestConfirmed ==> n + d == latestConfirmed
    ensures n > latestConfirmed ==> d == 0
  {
    if n <= latestConfirmed then latestConfirmed - n else 0
  }

  function Unconfirmed(latestConfirmed: U64, threshold: U32, pending: seq<Block>): seq<Block> {
    if pending != [] && Confirmations(latestConfirmed, pending[0]) >= threshold
    then Unconfirmed(latestConfirmed, threshold, pending[1..])
    else pending
  }

  function Confirmed(threshold: U32, n: Chain): Chain {
    n.(pending := Unconfirmed(n.latestConfirmed, threshold, n.pending))
  }

  /** The cache is bounded and every entry sits under its own number. */
  ghost predicate Bounded(maxCacheSize: nat, cache: Cache) {
    |cache.Keys| <= maxCacheSize && KeyedByNumber(cache)
  }

  lemma {:induction false} AddedIsBounded(maxCacheSize: nat, cache: Cache, block: Block)
    requires KeyedByNumber(cache)
    ensures Bounded(maxCacheSize, Added(maxCacheSize, cache, block))
    ensures Added(maxCacheSize, cache, block).Keys <= cache.Keys + {block.header.number}
  {
    if maxCacheSize >= 1 {
      NewestKeeps(cache, maxCacheSize - 1);
      var kept := Newest(cache, maxCacheSize - 1);
      assert KeyedByNumber(kept);
      hide Newest, KeyedByNumber;
      InsertedIsBounded(maxCacheSize, kept, block);
    }
  }

  lemma AddedHolds(maxCacheSize: nat, cache: Cache, block: Block)
    ensures maxCacheSize >= 1 ==> forall c: Cache ::
      block.header.number in Added(maxCacheSize, c, block) && Added(maxCacheSize, c, block)[block.header.number] == block
      && Added(maxCacheSize, c, block) == Newest(c, maxCacheSize - 1)[block.header.number := block]
  {
    hide Newest;
  }

  lemma InsertedIsBounded(maxCacheSize: nat, kept: Cache, block: Block)
    requires |kept.Keys| < maxCacheSize && KeyedByNumber(kept)
    ensures Bounded(maxCacheSize, kept[block.header.number := block])
    ensures kept[block.header.number := block].Keys == kept.Keys + {block.header.number}
  {
    assert kept[block.header.number := block].Keys == kept.Keys + {block.header.number};
  }

  // ---------- the manager ----------

  class Manager {
    const maxCacheSize: nat
    const confirmationThreshold: U32
    var cache: Cache
    var latestConfirmed: U64
    var pending: seq<Block>
    var status: SyncStatus
    /** Read guards on the cache that calls in progress hold; a write waits until there is none. */
    var guards: nat

    ghost predicate Valid()
      reads this
    {
      Bounded(maxCacheSize, cache)
    }

    ghost function View(): Chain
      reads this
    {
      Chain(cache, latestConfirmed, pending, guards)
    }

    constructor (maxCacheSize: nat, confirmationThreshold: U32)
      ensures Valid() && View() == Chain(map[], 0, [], 0) && status == Idle
      ensures this.maxCacheSize == maxCacheSize && this.confirmationThreshold == confirmationThreshold
    {
      this.maxCacheSize, this.confirmationThreshold := maxCacheSize, confirmationThreshold;
      cache, latestConfirmed, pending, status, guards := map[], 0, [], Idle, 0;
    }

    /**
     `add_block_to_cache`: wait for the write lock, make room by dropping the lowest numbers, then
     insert.  It ends exactly when no guard is held and the cache may hold a block at all.
     */
    method AddBlockToCache(block: Block) returns (ends: bool)
      requires Valid()
      modifies this`cache
      ensures Valid()
      ensures ends <==> guards == 0 && maxCacheSize >= 1
      ensures cache == if guards == 0 then Added(maxCacheSize, old(cache), block) else old(cache)
    {
      hide Newest;
      AddedIsBounded(maxCacheSize, cache, block);
      if guards > 0 {
        return false;
      }
      ends := EvictOldest();
      if ends {
        cache := cache[block.header.number := block];
      }
    }

    /** The eviction loop; a pass over an empty cache changes nothing, so that it is then passed for ever. */
    method EvictOldest() returns (ends: bool)
      requires Valid()
      modifies this`cache
      ensures ends <==> maxCacheSize >= 1
      ensures cache == if ends then Newest(old(cache), maxCacheSize - 1) else map[]
    {
      while |cache.Keys| >= maxCacheSize && cache.Keys != {}
        invariant maxCacheSize >= 1 ==> Newest(cache, maxCacheSize - 1) == Newest(old(cache), maxCacheSize - 1)
        decreases |cache.Keys|
      {
        ghost var min := MinKey(cache);
        var minKey :| minKey in cache.Keys && forall k | k in cache.Keys :: minKey <= k;
        assert minKey == min;
        assert (cache - {minKey}).Keys == cache.Keys - {minKey};
        cache := cache - {minKey};
      }
      ends := |cache.Keys| < maxCacheSize;
      if !ends {
        assert cache == map[];
      }
    }

    /** `is_fork`: the cached parent is not the one the block names. */
    predicate IsFork(block: Block)
      reads this
    {
      Disputes(cache, block)
    }

    method FindCommonAncestor(block: Block) returns (r: U64)
      ensures r == NearestCached(cache, Pred(block.header.number))
    {
      r := Pred(block.header.number);
      while r > 0
        invariant NearestCached(cache, r) == NearestCached(cache, Pred(block.header.number))
      {
        if r in cache {
          return;
        }
        r := r - 1;
      }
    }

    method FetchCompetingChainHeaders(ancestor: U64, startParentHash: string) returns (headers: seq<Header>)
      ensures headers == Walk(cache, Succ(ancestor), latestConfirmed, startParentHash)
      ensures KeyedByNumber(cache) && ancestor < U64_MAX ==>
        IsBranch(cache, ancestor + 1, latestConfirmed, startParentHash, headers)
    {
      if KeyedByNumber(cache) {
        WalkIsBranch(cache, Succ(ancestor), latestConfirmed, startParentHash);
      }
      hide IsBranch, KeyedByNumber;
      var low := Succ(ancestor);
      var collected: seq<Header> := [];
      var parentHash := startParentHash;
      var n: int := latestConfirmed;
      while n >= low
        invariant n <= latestConfirmed
        invariant Walk(cache, low, latestConfirmed, startParentHash)
               == Walk(cache, low, n, parentHash) + Reversed(collected)
        decreases n - low + 1
      {
        if n in cache {
          var h := cache[n].header;
          if h.hash == parentHash || h.parentHash == parentHash {
            ReversedAppend(collected, h);
            collected := collected + [h];
            parentHash := h.parentHash;
          }
        }
        n := n - 1;
      }
      headers := Reversed(collected);
    }

    /** `reorganize_to_chain`, which begins by waiting for the write lock. */
    method Reorganize(headers: seq<Header>, ancestor: U64, fetch: Fetch) returns (ends: bool)
      requires KeyedByNumber(cache)
      modifies this`cache, this`latestConfirmed
      ensures KeyedByNumber(cache) && (ends <==> guards == 0)
      ensures !ends ==> cache == old(cache) && latestConfirmed == old(latestConfirmed)
      ensures ends ==> cache == Reorganised(old(cache), Succ(ancestor), old(latestConfirmed), headers, fetch)
      ensures ends ==> forall k: U64 :: ReplacedAt(old(cache), cache, Succ(ancestor), old(latestConfirmed), headers, fetch, k)
      ensures ends && headers == [] ==> latestConfirmed == old(latestConfirmed)
      ensures ends && headers != [] ==> latestConfirmed == headers[|headers| - 1].number
    {
      if guards > 0 {
        return false;
      }
      var low := Succ(ancestor);
      cache := Orphaned(cache, low, latestConfirmed);
      for i := 0 to |headers|
        invariant KeyedByNumber(cache) && latestConfirmed == old(latestConfirmed)
        invariant cache == Reorganised(old(cache), low, old(latestConfirmed), headers[..i], fetch)
      {
        assert headers[..i + 1][..i] == headers[..i];
        var block := FetchBlock(fetch, headers[i].number);
        if block.Some? {
          cache := cache[block.value.header.number := block.value];
        }
      }
      assert headers[..|headers|] == headers;
      if headers != [] {
        latestConfirmed := headers[|headers| - 1].number;
      }
      forall k: U64
        ensures ReplacedAt(old(cache), cache, Succ(ancestor), old(latestConfirmed), headers, fetch, k)
      {
        ReorganisedIs(old(cache), low, old(latestConfirmed), headers, fetch, k);
      }
      ends := true;
    }

    /** The first half of `handle_fork` and `resolve_fork`: find the competing branch and weigh it. */
    method WeighFork(conflicting: Block, stakes: Stakes) returns (ancestor: U64, branch: seq<Header>, keep: bool)
      ensures ancestor == NearestCached(cache, Pred(conflicting.header.number))
      ensures branch == CompetingBranch(cache, conflicting, latestConfirmed)
      ensures keep == KeepsCache(cache, latestConfirmed, conflicting, stakes)
      ensures RightlyKept(stakes, conflicting.header, branch, keep)
    {
      hide RightlyKept, Weight, Walk, StringLe, NearestCached, AWins;
      ancestor := FindCommonAncestor(conflicting);
      branch := FetchCompetingChainHeaders(ancestor, conflicting.header.parentHash);
      var chainA := [conflicting.header];
      var weightA := ChainStakeWeight(stakes, chainA);
      var weightB := ChainStakeWeight(stakes, branch);
      keep := AWins(weightA, weightB, chainA, branch);
      HeavierBranchWins(stakes, conflicting.header, branch);
    }

    /**
     `handle_fork` with the `resolve_fork` it ends in: no number enters the cache that was not
     there, and the call waits for ever exactly if it has to reorganise under a guard.
     */
    method HandleFork(conflicting: Block, stakes: Stakes, fetch: Fetch) returns (ends: bool)
      requires Valid()
      modifies this`cache, this`latestConfirmed, this`status
      ensures Valid() && cache.Keys <= old(cache).Keys
      ensures ends <==> old(ForkEnds(View(), conflicting, stakes))
      ensures status == if ends then Live else ResolvingFork
      ensures cache != old(cache) || latestConfirmed != old(latestConfirmed) ==> guards == 0
      ensures RightlyKept(stakes, conflicting.header, CompetingBranch(old(cache), conflicting, old(latestConfirmed)), true)
        ==> cache == old(cache) && latestConfirmed == old(latestConfirmed)
      ensures guards == 0 && RightlyKept(stakes, conflicting.header, CompetingBranch(old(cache), conflicting, old(latestConfirmed)), false) ==>
        var branch := CompetingBranch(old(cache), conflicting, old(latestConfirmed));
        && branch != [] && latestConfirmed == branch[|branch| - 1].number
        && forall k: U64 :: ReplacedAt(old(cache), cache, Succ(NearestCached(old(cache), Pred(conflicting.header.number))),
                                       old(latestConfirmed), branch, fetch, k)
      ensures (cache, latestConfirmed)
           == if ends then old(AfterFork(cache, latestConfirmed, conflicting, stakes, fetch)) else old((cache, latestConfirmed))
    {
      hide Weight, Walk, KeyedByNumber, NearestCached, AWins, Reorganised;
      status := ResolvingFork;
      var ancestor, branch, keep := WeighFork(conflicting, stakes);
      WalkNumbersCached(cache, Succ(ancestor), latestConfirmed, conflicting.header.parentHash);
      ghost var before := cache;
      if !keep {
        ends := Reorganize(branch, ancestor, fetch);
        if !ends {
          return;
        }
        ReorganisedKeys(before, Succ(ancestor), old(latestConfirmed), branch, fetch);
        SubsetSize(cache.Keys, before.Keys);
        NeverReorganisesOntoNothing(stakes, [conflicting.header], branch);
      }
      status := Live;
      ends := true;
    }

    /** `process_new_block`; it ends exactly when no guard is held and the cache may hold a block. */
    method ProcessNewBlock(block: Block, stakes: Stakes, fetch: Fetch) returns (ends: bool)
      requires Valid()
      modifies this`cache, this`latestConfirmed, this`status, this`pending
      ensures Valid() && (ends <==> guards == 0 && maxCacheSize >= 1)
      ensures cache.Keys <= old(cache).Keys + {block.header.number}
      ensures View() == old(Processed(maxCacheSize, View(), block, stakes, fetch))
      ensures var n := block.header.number;
              var parent := if n == 0 then 0xFFFF_FFFF_FFFF_FFFF else n - 1;
              ends && (parent in old(cache) ==> old(cache)[parent].header.hash == block.header.parentHash) ==>
                && cache == Newest(old(cache), maxCacheSize - 1)[n := block] && latestConfirmed == old(latestConfirmed)
                && status == old(status) && pending == old(pending) + [block]
      ensures var n := block.header.number;
              var parent := if n == 0 then 0xFFFF_FFFF_FFFF_FFFF else n - 1;
              var branch := CompetingBranch(old(cache), block, old(latestConfirmed));
              ends && parent in old(cache) && old(cache)[parent].header.hash != block.header.parentHash ==>
                && status == Live
                && (RightlyKept(stakes, block.header, branch, true) ==>
                      cache == Newest(old(cache), maxCacheSize - 1)[n := block] && latestConfirmed == old(latestConfirmed))
                && (RightlyKept(stakes, block.header, branch, false) ==> branch != [] && latestConfirmed == branch[|branch| - 1].number)
      ensures ends ==> pending == old(pending) + [block] && block.header.number in cache && cache[block.header.number] == block
    {
      DisputesMeans(cache, block);
      AddedHolds(maxCacheSize, cache, block);
      hide RightlyKept, ReplacedAt;
      hide Newest, AfterFork, Disputes, KeepsCache, KeyedByNumber, Added;
      if IsFork(block) {
        ends := HandleFork(block, stakes, fetch);
        if !ends {
          return;
        }
      }
      pending := pending + [block];
      AddedIsBounded(maxCacheSize, cache, block);
      ends := AddBlockToCache(block);
    }

    /**
     `check_for_forks` keeps its read guard on the cache while it resolves the highest broken link
     among the recent numbers.  If the cached branch wins, the reorganisation waits for that very
     guard: the call never ends and its guard stays.  If the call ends, nothing was reorganised.
     */
    method CheckForForks(stakes: Stakes, fetch: Fetch) returns (ends: bool)
      requires Valid()
      modifies this`cache, this`latestConfirmed, this`status, this`guards
      ensures Valid() && View() == old(ForkChecked(confirmationThreshold, View(), stakes))
      ensures ends <==> old(CheckEnds(cache, latestConfirmed, confirmationThreshold, stakes))
      ensures status == if old(NoneBroken(cache, latestConfirmed, confirmationThreshold)) then old(status)
                        else if ends then Live else ResolvingFork
    {
      hide KeepsCache, BrokenLink, KeyedByNumber, Reorganised;
      guards := guards + 1;
      var broken := FindBrokenLink();
      if broken.Some? {
        ends := HandleFork(cache[broken.value], stakes, fetch);
        if !ends {
          return;
        }
      }
      guards := guards - 1;
      ends := true;
    }

    /** The loop of `check_for_forks`, from the confirmed height down. */
    method FindBrokenLink() returns (broken: Option<U64>)
      ensures broken.None? ==> LinkedFrom(cache, latestConfirmed - confirmationThreshold, latestConfirmed)
      ensures broken.Some? ==>
        var m := broken.value;
        && 1 < m <= latestConfirmed < m + confirmationThreshold
        && m in cache && m - 1 in cache && cache[m - 1].header.hash != cache[m].header.parentHash
        && LinkedFrom(cache, m, latestConfirmed)
      ensures broken.None? ==> NoneBroken(cache, latestConfirmed, confirmationThreshold)
      ensures broken.Some? ==> HighestBroken(cache, latestConfirmed, confirmationThreshold, broken.value) && broken.value in cache
    {
      for i := 0 to confirmationThreshold
        invariant forall m: U64 | latestConfirmed - i < m <= latestConfirmed :: !BrokenLink(cache, m)
        invariant LinkedFrom(cache, latestConfirmed - i, latestConfirmed)
      {
        var n: U64 := if latestConfirmed >= i then latestConfirmed - i else 0;
        if n == 0 {
          break;
        }
        if BrokenLink(cache, n) {
          return Some(n);
        }
      }
      broken := None;
    }

    /** `confirm_pending_blocks`: announces the longest confirmed prefix, in order, and keeps the rest. */
    method ConfirmPendingBlocks() returns (confirmed: seq<Block>)
      modifies this`pending
      ensures confirmed + pending == old(pending)
      ensures forall b | b in confirmed :: Depth(latestConfirmed, b.header.number) % 0x1_0000_0000 >= confirmationThreshold
      ensures pending != [] ==> Depth(latestConfirmed, pending[0].header.number) % 0x1_0000_0000 < confirmationThreshold
      ensures View() == old(Confirmed(confirmationThreshold, View()))
    {
      confirmed := [];
      while pending != []
        invariant confirmed + pending == old(pending)
        invariant forall b | b in confirmed :: Confirmations(latestConfirmed, b) >= confirmationThreshold
        invariant Unconfirmed(latestConfirmed, confirmationThreshold, pending)
               == Unconfirmed(latestConfirmed, confirmationThreshold, old(pending))
        decreases |pending|
      {
        if Confirmations(latestConfirmed, pending[0]) < confirmationThreshold {
          break;
        }
        confirmed := confirmed + [pending[0]];
        pending := pending[1..];
      }
    }

    /** One iteration of the initial sync. */
    method SyncBlock(n: U64, fetch: Fetch, ghost clean: bool, ghost start: nat) returns (ends: bool)
      requires Valid() && (clean ==> start <= n <= start + maxCacheSize && FetchBlock(fetch, n).Some? && guards == 0 && maxCacheSize >= 1)
      requires clean ==> Synced(cache, fetch, start, n)
      modifies this`cache
      ensures Valid()
      ensures ends <==> FetchBlock(fetch, n).None? || (guards == 0 && maxCacheSize >= 1)
      ensures clean ==> Synced(cache, fetch, if n - start < maxCacheSize then start else start + 1, n + 1)
    {
      hide Newest, Synced, KeyedByNumber, FetchBlock;
      var block := FetchBlock(fetch, n);
      ends := true;
      if block.Some? {
        ghost var before := cache;
        ends := AddBlockToCache(block.value);
        if clean {
          SyncStep(before, cache, fetch, maxCacheSize, start, n, block.value);
        }
      }
    }

    /**
     `initial_sync` asks for one block more than fits; on an empty cache with every fetch
     answered, exactly the last `maxCacheSize` numbers remain.
     */
    method InitialSync(latest: U64, fetch: Fetch) returns (ends: bool)
      requires Valid()
      modifies this`cache, this`latestConfirmed
      ensures Valid() && latestConfirmed == if ends then latest else old(latestConfirmed)
      ensures ends <==> (guards == 0 && maxCacheSize >= 1) || NoneAnswered(fetch, latest - maxCacheSize, latest)
      ensures guards == 0 && maxCacheSize >= 1 && old(cache) == map[] && AllAnswered(fetch, latest - maxCacheSize, latest) ==>
        Synced(cache, fetch, if latest + 1 >= maxCacheSize then latest + 1 - maxCacheSize else 0, latest + 1)
    {
      hide Newest, Synced, KeyedByNumber, FetchBlock, AllAnswered;
      var start: nat := if latest >= maxCacheSize then latest - maxCacheSize else 0;
      ghost var clean := guards == 0 && maxCacheSize >= 1 && cache == map[] && AllAnswered(fetch, latest - maxCacheSize, latest);
      NothingSynced(fetch, start);
      var n: nat := start;
      while n <= latest
        invariant start <= n <= latest + 1
        invariant Valid() && latestConfirmed == old(latestConfirmed)
        invariant (guards == 0 && maxCacheSize >= 1) || forall k: U64 | start <= k < n :: FetchBlock(fetch, k).None?
        invariant clean ==> Synced(cache, fetch, if n - start <= maxCacheSize then start else start + 1, n)
        decreases latest + 1 - n
      {
        if clean {
          Answered(fetch, latest - maxCacheSize, latest, n);
        }
        var synced := SyncBlock(n, fetch, clean, start);
        if !synced {
          return false;
        }
        n := n + 1;
      }
      latestConfirmed := latest;
      ends := true;
    }
  }

  lemma {:induction false} SubsetSize(a: set<U64>, b: set<U64>)
    requires a <= b
    ensures |a| <= |b|
    decreases b
  {
    if a != b {
      var x :| x in b && x !in a;
      SubsetSize(a, b - {x});
    }
  }

  // ---------- contiguous numbers ----------

  ghost function Numbers(low: nat, high: nat): set<U64>
    requires high <= U64_MAX + 1
    decreases high
  {
    if high <= low then {} else Numbers(low, high - 1) + {high - 1}
  }

  lemma {:induction false} NumbersMember(low: nat, high: nat, k: U64)
    requires high <= U64_MAX + 1
    ensures k in Numbers(low, high) <==> low <= k < high
    decreases high
  {
    if low < high {
      NumbersMember(low, high - 1, k);
    }
  }

  lemma {:induction false} NumbersSize(low: nat, high: nat)
    requires low <= high <= U64_MAX + 1
    ensures |Numbers(low, high)| == high - low
    decreases high
  {
    if low < high {
      NumbersSize(low, high - 1);
      NumbersMember(low, high - 1, high - 1);
    }
  }

  lemma {:induction false} NumbersFromNext(low: nat, high: nat)
    requires low < high <= U64_MAX + 1
    ensures Numbers(low, high) == {low} + Numbers(low + 1, high)
    decreases high
  {
    if low + 1 < high {
      NumbersFromNext(low, high - 1);
    } else {
      assert Numbers(low, high - 1) == {};
    }
  }

  /** Every number in the range is answered. */
  ghost predicate AllAnswered(fetch: Fetch, low: int, high: U64) {
    forall n: U64 | low <= n <= high :: fetch(n).Some?
  }

  ghost predicate NoneAnswered(fetch: Fetch, low: int, high: U64) {
    forall n: U64 | low <= n <= high :: FetchBlock(fetch, n).None?
  }

  lemma Answered(fetch: Fetch, low: int, high: U64, n: U64)
    requires AllAnswered(fetch, low, high) && low <= n <= high
    ensures FetchBlock(fetch, n).Some?
  {
  }

  /** The cache holds exactly the numbers from `low` below `high`, as fetched. */
  ghost predicate Synced(cache: Cache, fetch: Fetch, low: nat, high: nat)
    requires high <= U64_MAX + 1
  {
    cache.Keys == Numbers(low, high) && AsFetched(cache, fetch)
  }

  ghost predicate AsFetched(cache: Cache, fetch: Fetch) {
    forall k: U64 | k in cache :: FetchBlock(fetch, k) == Some(cache[k])
  }

  lemma NothingSynced(fetch: Fetch, n: nat)
    requires n <= U64_MAX + 1
    ensures Synced(map[], fetch, n, n)
  {
  }

  lemma AsFetchedStep(before: Cache, kept: Cache, fetch: Fetch, n: U64, block: Block)
    requires AsFetched(before, fetch) && FetchBlock(fetch, n) == Some(block)
    requires kept.Keys <= before.Keys && forall k | k in kept :: kept[k] == before[k]
    ensures AsFetched(kept[n := block], fetch)
  {
    hide FetchBlock;
  }

  /** Adding the next number to a full run loses exactly the lowest one. */
  lemma {:induction false} SyncStep(before: Cache, after: Cache, fetch: Fetch, max: nat, start: nat, n: U64, block: Block)
    requires max >= 1 && start <= n <= start + max && FetchBlock(fetch, n) == Some(block)
    requires Synced(before, fetch, start, n)
    requires after == Newest(before, max - 1)[n := block]
    ensures Synced(after, fetch, if n - start < max then start else start + 1, n + 1)
  {
    hide Newest, FetchBlock, AsFetched;
    var kept := Newest(before, max - 1);
    NewestKeeps(before, max - 1);
    AsFetchedStep(before, kept, fetch, n, block);
    assert after.Keys == kept.Keys + {n};
    SyncKeys(before.Keys, kept.Keys, max, start, n);
  }

  lemma {:induction false} SyncKeys(before: set<U64>, kept: set<U64>, max: nat, start: nat, n: U64)
    requires max >= 1 && start <= n <= start + max && before == Numbers(start, n)
    requires kept <= before && |kept| == Min(|before|, max - 1)
    requires forall j, k | j in before && j !in kept && k in kept :: j < k
    ensures kept + {n} == Numbers(if n - start < max then start else start + 1, n + 1)
  {
    NumbersSize(start, n);
    if n - start < max {
      SameSizeSubset(kept, before);
    } else {
      NumbersFromNext(start, n);
      FullRunLosesFirst(before, kept, max, start, n);
    }
  }

  lemma {:induction false} FullRunLosesFirst(before: set<U64>, kept: set<U64>, max: nat, start: nat, n: U64)
    requires max >= 1 && n == start + max && before == Numbers(start, n) == {start} + Numbers(start + 1, n)
    requires kept <= before && |before| == max && |kept| == max - 1
    requires forall j, k | j in before && j !in kept && k in kept :: j < k
    ensures kept == Numbers(start + 1, n)
  {
    hide Numbers;
    NumbersSize(start + 1, n);
    assert kept != before;
    var j :| j in before && j !in kept;
    NumbersMember(start, n, j);
    assert start !in kept;
    SameSizeSubset(kept, Numbers(start + 1, n));
  }

  lemma SameSizeSubset(a: set<U64>, b: set<U64>)
    requires a <= b && |a| >= |b|
    ensures a == b
  {
    if a != b {
      var x :| x in b && x !in a;
      SubsetSize(a, b - {x});
    }
  }

  // ---------- what "common ancestor" means here ----------

  /**
   When a fork is detected the parent's number is cached, so the "common ancestor" found is the
   parent itself: the very block whose hash the new block disputes.
   */
  lemma {:induction false} AncestorIsTheDisputedParent(cache: Cache, block: Block)
    requires var parent := Pred(block.header.number);
             parent in cache && cache[parent].header.hash != block.header.parentHash
    ensures var r := NearestCached(cache, Pred(block.header.number));
            r == Pred(block.header.number) && cache[r].header.hash != block.header.parentHash
  {
  }

  /**
   Hence a fork at a block beyond the confirmed height has an empty competing branch: the new
   block wins and nothing is reorganised.
   */
  lemma {:induction false} ForkBeyondTipKeepsCache(cache: Cache, block: Block, latestConfirmed: U64, stakes: Stakes)
    requires latestConfirmed < block.header.number
    requires var parent := Pred(block.header.number);
             parent in cache && cache[parent].header.hash != block.header.parentHash
    ensures ChoosesA(stakes, [block.header], CompetingBranch(cache, block, latestConfirmed))
  {
    hide Weight;
    AncestorIsTheDisputedParent(cache, block);
    var branch := CompetingBranch(cache, block, latestConfirmed);
    assert branch == [];
    if !ChoosesA(stakes, [block.header], branch) {
      NeverReorganisesOntoNothing(stakes, [block.header], branch);
    }
  }

  // ---------- the confirmed height over whole runs ----------

  datatype Event = NewBlock(block: Block, stakes: Stakes, fetch: Fetch) | ForkCheck(stakes: Stakes) | Confirm

  ghost function Follow(maxCacheSize: nat, threshold: U32, n: Chain, events: seq<Event>): Chain {
    if events == [] then n
    else
      var k := |events| - 1;
      var before := Follow(maxCacheSize, threshold, n, events[..k]);
      match events[k]
      case NewBlock(block, stakes, fetch) => Processed(maxCacheSize, before, block, stakes, fetch)
      case ForkCheck(stakes) => ForkChecked(threshold, before, stakes)
      case Confirm => Confirmed(threshold, before)
  }

  lemma {:induction false} ReorganisedKeyed(cache: Cache, low: U64, high: U64, headers: seq<Header>, fetch: Fetch)
    requires KeyedByNumber(cache)
    ensures KeyedByNumber(Reorganised(cache, low, high, headers, fetch))
  {
    hide FetchBlock;
    if headers != [] {
      ReorganisedKeyed(cache, low, high, headers[..|headers| - 1], fetch);
    }
  }

  /** Resolving a fork never raises the confirmed height. */
  lemma {:induction false} ForkKeepsHeight(cache: Cache, latestConfirmed: U64, block: Block, stakes: Stakes, fetch: Fetch)
    requires KeyedByNumber(cache)
    ensures AfterFork(cache, latestConfirmed, block, stakes, fetch).1 <= latestConfirmed
    ensures KeyedByNumber(AfterFork(cache, latestConfirmed, block, stakes, fetch).0)
  {
    hide KeyedByNumber, KeepsCache, Walk, Reorganised, NearestCached;
    var low := Succ(NearestCached(cache, Pred(block.header.number)));
    var branch := CompetingBranch(cache, block, latestConfirmed);
    WalkStaysInCache(cache, low, latestConfirmed, block.header.parentHash);
    ReorganisedKeyed(cache, low, latestConfirmed, branch, fetch);
    if branch != [] {
      assert branch[|branch| - 1] in branch;
    }
  }

  lemma {:induction false} ProcessedKeepsHeight(maxCacheSize: nat, n: Chain, block: Block, stakes: Stakes, fetch: Fetch)
    requires KeyedByNumber(n.cache)
    ensures var n' := Processed(maxCacheSize, n, block, stakes, fetch);
            n'.latestConfirmed <= n.latestConfirmed && KeyedByNumber(n'.cache)
  {
    hide AfterFork, Added, Disputes, KeyedByNumber, KeepsCache;
    ForkKeepsHeight(n.cache, n.latestConfirmed, block, stakes, fetch);
    var settled := if Disputes(n.cache, block) then AfterFork(n.cache, n.latestConfirmed, block, stakes, fetch).0 else n.cache;
    AddedIsBounded(maxCacheSize, settled, block);
  }

  /** After the initial sync the confirmed height never rises, whatever blocks arrive. */
  lemma {:induction false} HeightNeverRises(maxCacheSize: nat, threshold: U32, n: Chain, events: seq<Event>)
    requires KeyedByNumber(n.cache)
    ensures var n' := Follow(maxCacheSize, threshold, n, events);
            n'.latestConfirmed <= n.latestConfirmed && KeyedByNumber(n'.cache)
  {
    hide KeyedByNumber, Processed, Unconfirmed, CheckEnds;
    if events != [] {
      var k := |events| - 1;
      HeightNeverRises(maxCacheSize, threshold, n, events[..k]);
      var before := Follow(maxCacheSize, threshold, n, events[..k]);
      if events[k].NewBlock? {
        ProcessedKeepsHeight(maxCacheSize, before, events[k].block, events[k].stakes, events[k].fetch);
      }
    }
  }

  /** A block at or above the confirmed height stays pending, and with it all behind it. */
  lemma {:induction false} UnconfirmedKeeps(latestConfirmed: U64, threshold: U32, pending: seq<Block>, i: nat)
    requires threshold >= 1 && i < |pending| && pending[i].header.number >= latestConfirmed
    ensures var rest := Unconfirmed(latestConfirmed, threshold, pending);
            |pending| - i <= |rest| && rest[|rest| - (|pending| - i)..] == pending[i..]
  {
    if i > 0 && Confirmations(latestConfirmed, pending[0]) >= threshold {
      UnconfirmedKeeps(latestConfirmed, threshold, pending[1..], i - 1);
      assert pending[1..][i - 1..] == pending[i..];
    }
  }

  /** These blocks stand in the queue from this place on, others behind them. */
  ghost predicate QueuedAt(blocks: seq<Block>, pending: seq<Block>, j: nat) {
    j < |pending| && blocks <= pending[j..]
  }

  ghost predicate StillQueued(blocks: seq<Block>, pending: seq<Block>) {
    exists j: nat :: QueuedAt(blocks, pending, j)
  }

  lemma QueuedBehind(blocks: seq<Block>, pending: seq<Block>, j: nat, block: Block)
    requires QueuedAt(blocks, pending, j)
    ensures QueuedAt(blocks, pending + [block], j)
  {
    assert (pending + [block])[j..] == pending[j..] + [block];
  }

  /**
   So with a threshold of at least one, a pending block at or above the height of the initial sync
   is never confirmed, nor is anything that queued behind it.
   */
  lemma {:induction false} NeverConfirmed(maxCacheSize: nat, threshold: U32, n: Chain, events: seq<Event>, i: nat)
    requires KeyedByNumber(n.cache) && threshold >= 1
    requires i < |n.pending| && n.pending[i].header.number >= n.latestConfirmed
    ensures StillQueued(n.pending[i..], Follow(maxCacheSize, threshold, n, events).pending)
  {
    hide KeyedByNumber, Added, AfterFork, Disputes, ForkEnds, Unconfirmed, Confirmations, CheckEnds;
    if events == [] {
      assert QueuedAt(n.pending[i..], n.pending, i);
    } else {
      var k := |events| - 1;
      HeightNeverRises(maxCacheSize, threshold, n, events[..k]);
      NeverConfirmed(maxCacheSize, threshold, n, events[..k], i);
      var before := Follow(maxCacheSize, threshold, n, events[..k]);
      var j: nat :| QueuedAt(n.pending[i..], before.pending, j);
      assert before.pending[j] == before.pending[j..][0] == n.pending[i..][0] == n.pending[i];
      var rest := Follow(maxCacheSize, threshold, n, events).pending;
      var at: nat := j;
      match events[k] {
        case NewBlock(block, _, _) => QueuedBehind(n.pending[i..], before.pending, j, block);
        case ForkCheck(_) =>
        case Confirm =>
          UnconfirmedKeeps(before.latestConfirmed, threshold, before.pending, j);
          at := |rest| - (|before.pending| - j);
      }
      assert QueuedAt(n.pending[i..], rest, at);
    }
  }

  /** In particular every block that is queued at or above that height stays pending for good. */
  lemma {:induction false} LaterBlocksStayPending(maxCacheSize: nat, threshold: U32, n: Chain, events: seq<Event>, later: seq<Event>, block: Block)
    requires KeyedByNumber(n.cache) && threshold >= 1 && block.header.number >= n.latestConfirmed
    requires block in Follow(maxCacheSize, threshold, n, events).pending
    ensures block in Follow(maxCacheSize, threshold, n, events + later).pending
  {
    hide KeyedByNumber, Follow;
    var at := Follow(maxCacheSize, threshold, n, events);
    HeightNeverRises(maxCacheSize, threshold, n, events);
    var i: nat :| i < |at.pending| && at.pending[i] == block;
    NeverConfirmed(maxCacheSize, threshold, at, later, i);
    FollowAppend(maxCacheSize, threshold, n, events, later);
    var rest := Follow(maxCacheSize, threshold, n, events + later).pending;
    var j: nat :| QueuedAt(at.pending[i..], rest, j);
    assert rest[j] == rest[j..][0] == at.pending[i..][0];
  }

  /** Once a fork check waits for itself, neither the cache nor the height ever changes again. */
  lemma {:induction false} StuckCheckFreezesCache(maxCacheSize: nat, threshold: U32, n: Chain, events: seq<Event>)
    requires n.guards > 0
    ensures var n' := Follow(maxCacheSize, threshold, n, events);
            n'.guards >= n.guards && n'.cache == n.cache && n'.latestConfirmed == n.latestConfirmed
  {
    hide Added, Disputes, KeepsCache, CheckEnds, Unconfirmed, Reorganised;
    if events != [] {
      StuckCheckFreezesCache(maxCacheSize, threshold, n, events[..|events| - 1]);
    }
  }

  lemma {:induction false} FollowAppend(maxCacheSize: nat, threshold: U32, n: Chain, a: seq<Event>, b: seq<Event>)
    ensures Follow(maxCacheSize, threshold, n, a + b) == Follow(maxCacheSize, threshold, Follow(maxCacheSize, threshold, n, a), b)
    decreases |b|
  {
    hide Processed, Confirmed, ForkChecked;
    if b == [] {
      assert a + b == a;
    } else {
      var k := |b| - 1;
      assert (a + b)[..|a + b| - 1] == a + b[..k];
      FollowAppend(maxCacheSize, threshold, n, a, b[..k]);
    }
  }
}
