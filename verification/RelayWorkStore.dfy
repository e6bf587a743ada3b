/**
 The relay work event store (`relay_work_store.rs`): deduplication by event id within an epoch,
 retention of recent epochs, and persistence with hex-encoded ids.
 */
module RelayWorkStore {
  import opened Bytes
  import opened MapSums

  const EPOCH_LENGTH_BLOCKS: nat := 1800

  type EventId = b: Bytes | |b| == 32
    witness [0, 0, 0, 0, 0, 0, 0, 0, 0, 0, 0, 0, 0, 0, 0, 0, 0, 0, 0, 0, 0, 0, 0, 0, 0, 0, 0, 0, 0, 0, 0, 0]

  datatype WorkEventType = ProofOfDelivery | ProofOfRelayWork | ProofOfTransit

  datatype WorkEvent = WorkEvent(relayId: string, blockHeight: nat, eventId: EventId, eventType: WorkEventType)

  type Buckets = map<nat, seq<WorkEvent>>
  type Seen = map<nat, set<EventId>>

  datatype Store = Store(events: Buckets, seen: Seen, currentEpoch: nat)

  const EMPTY: Store := Store(map[], map[], 0)

  function EpochOf(e: WorkEvent): nat {
    e.blockHeight / EPOCH_LENGTH_BLOCKS
  }

  // ---------- the two phases of `record_event`, and cleanup ----------

  predicate IsDuplicate(s: Store, e: WorkEvent) {
    EpochOf(e) in s.seen && e.eventId in s.seen[EpochOf(e)]
  }

  function Bucket(events: Buckets, epoch: nat): seq<WorkEvent> {
    if epoch in events then events[epoch] else []
  }

  function SeenIn(seen: Seen, epoch: nat): set<EventId> {
    if epoch in seen then seen[epoch] else {}
  }

  /** The second phase: both maps are updated under their write locks. */
  function Commit(s: Store, e: WorkEvent): Store {
    var epoch := EpochOf(e);
    s.(events := s.events[epoch := Bucket(s.events, epoch) + [e]],
       seen := s.seen[epoch := SeenIn(s.seen, epoch) + {e.eventId}])
  }

  /** `cleanup_old_epochs`: the epochs to remove are read off the event map only. */
  function Cleanup(s: Store, epoch: nat, retained: nat): Store {
    if epoch <= retained then s
    else
      var expired := set k | k in s.events.Keys && k < epoch - retained;
      s.(events := s.events - expired, seen := s.seen - expired)
  }

  // ---------- consistency ----------

  ghost function Ids(events: seq<WorkEvent>): set<EventId> {
    set i | 0 <= i < |events| :: events[i].eventId
  }

  ghost predicate GoodBucket(events: seq<WorkEvent>, ids: set<EventId>, epoch: nat) {
    ids == Ids(events) && forall e | e in events :: EpochOf(e) == epoch
  }

  /** Equal keys, seen ids are the ids of the bucket, every event sits in its own epoch. */
  ghost predicate Consistent(s: Store) {
    s.events.Keys == s.seen.Keys && forall k | k in s.events :: GoodBucket(s.events[k], s.seen[k], k)
  }

  /** No id occurs twice in a bucket. */
  ghost predicate Unique(s: Store) {
    forall k | k in s.events :: DistinctIds(s.events[k])
  }

  ghost predicate DistinctIds(events: seq<WorkEvent>) {
    forall i, j | 0 <= i < j < |events| :: events[i].eventId != events[j].eventId
  }

  lemma {:induction false} BucketGrows(events: seq<WorkEvent>, ids: set<EventId>, e: WorkEvent)
    requires GoodBucket(events, ids, EpochOf(e))
    ensures GoodBucket(events + [e], ids + {e.eventId}, EpochOf(e))
    ensures DistinctIds(events + [e]) <==> DistinctIds(events) && e.eventId !in ids
  {
    var grown := events + [e];
    assert grown[|events|] == e;
    assert forall i | 0 <= i < |events| :: grown[i] == events[i];
    if DistinctIds(grown) {
      assert forall i | 0 <= i < |events| :: grown[i].eventId != grown[|events|].eventId;
    }
    if DistinctIds(events) && e.eventId !in ids {
      assert forall i | 0 <= i < |events| :: events[i].eventId in ids;
    }
  }

  lemma {:induction false} CommitKeepsConsistent(s: Store, e: WorkEvent)
    requires Consistent(s)
    ensures Consistent(Commit(s, e))
  {
    hide GoodBucket;
    assert GoodBucket([], {}, EpochOf(e)) by { EmptyBucket(EpochOf(e)); }
    BucketGrows(Bucket(s.events, EpochOf(e)), SeenIn(s.seen, EpochOf(e)), e);
  }

  lemma EmptyBucket(epoch: nat)
    ensures GoodBucket([], {}, epoch) && DistinctIds([])
  {
  }

  /** A commit creates a duplicate exactly when the id was already seen at that moment. */
  lemma {:induction false} CommitKeepsUniqueIffUnseen(s: Store, e: WorkEvent)
    requires Consistent(s) && Unique(s)
    ensures Unique(Commit(s, e)) <==> !IsDuplicate(s, e)
  {
    hide GoodBucket, DistinctIds;
    var epoch := EpochOf(e);
    EmptyBucket(epoch);
    BucketGrows(Bucket(s.events, epoch), SeenIn(s.seen, epoch), e);
    var s' := Commit(s, e);
    assert s'.events[epoch] == Bucket(s.events, epoch) + [e];
    assert forall k | k in s'.events && k != epoch :: k in s.events && s'.events[k] == s.events[k];
  }

  lemma {:induction false} CleanupKeeps(s: Store, epoch: nat, retained: nat)
    requires Consistent(s)
    ensures Consistent(Cleanup(s, epoch, retained))
    ensures Unique(s) ==> Unique(Cleanup(s, epoch, retained))
    ensures epoch > retained ==> forall k | k in Cleanup(s, epoch, retained).events :: k >= epoch - retained
    ensures forall k | k in s.events && k + retained >= epoch ::
      k in Cleanup(s, epoch, retained).events && Cleanup(s, epoch, retained).events[k] == s.events[k]
  {
    hide GoodBucket, DistinctIds;
  }

  // ---------- interleavings of concurrent callers ----------

  /**
   The store with the calls in progress: events whose duplicate check has passed but which are
   not yet committed, and epochs that are set but not yet swept.
   */
  datatype System = System(store: Store, checked: multiset<WorkEvent>, toSweep: multiset<nat>)

  datatype Action =
    | Check(event: WorkEvent)
    | Finish(event: WorkEvent)
    | SetEpoch(epoch: nat)
    | Sweep(epoch: nat)

  /** One atomic step; an action that is not enabled does nothing. */
  function Step(y: System, a: Action, retained: nat): System {
    match a
    case Check(e) => if IsDuplicate(y.store, e) then y else y.(checked := y.checked + multiset{e})
    case Finish(e) =>
      if e in y.checked then y.(store := Commit(y.store, e), checked := y.checked - multiset{e}) else y
    case SetEpoch(n) =>
      if n > y.store.currentEpoch then
        y.(store := y.store.(currentEpoch := n), toSweep := y.toSweep + multiset{n})
      else y
    case Sweep(n) =>
      if n in y.toSweep then y.(store := Cleanup(y.store, n, retained), toSweep := y.toSweep - multiset{n}) else y
  }

  function RunSteps(y: System, actions: seq<Action>, retained: nat): System {
    if actions == [] then y
    else Step(RunSteps(y, actions[..|actions| - 1], retained), actions[|actions| - 1], retained)
  }

  const START: System := System(EMPTY, multiset{}, multiset{})

  /** The two steps of a recording that nothing comes between record a new event once and a known one not at all. */
  lemma {:induction false} UndisturbedRecording(s: Store, e: WorkEvent, retained: nat)
    ensures RunSteps(System(s, multiset{}, multiset{}), [Check(e), Finish(e)], retained)
         == System(if IsDuplicate(s, e) then s else Commit(s, e), multiset{}, multiset{})
  {
    TwoSteps(System(s, multiset{}, multiset{}), Check(e), Finish(e), retained);
    hide RunSteps, IsDuplicate, Commit;
  }

  /** An epoch change that nothing comes between moves forward and sweeps, or does nothing. */
  lemma {:induction false} UndisturbedEpochChange(s: Store, n: nat, retained: nat)
    ensures RunSteps(System(s, multiset{}, multiset{}), [SetEpoch(n), Sweep(n)], retained)
         == System(if n > s.currentEpoch then Cleanup(s, n, retained).(currentEpoch := n) else s, multiset{}, multiset{})
  {
    TwoSteps(System(s, multiset{}, multiset{}), SetEpoch(n), Sweep(n), retained);
    hide RunSteps;
    assert multiset{n} - multiset{n} == multiset{};
  }

  lemma TwoSteps(y: System, a: Action, b: Action, retained: nat)
    ensures RunSteps(y, [a, b], retained) == Step(Step(y, a, retained), b, retained)
  {
    hide Step;
    var none: seq<Action> := [];
    assert [a, b][..1] == [a] && [a][..0] == none;
    assert RunSteps(y, [a], retained) == Step(RunSteps(y, none, retained), a, retained);
  }

  /** Under every interleaving the two maps stay consistent and the epoch never goes back. */
  lemma {:induction false} InterleavingsStayConsistent(actions: seq<Action>, retained: nat)
    ensures Consistent(RunSteps(START, actions, retained).store)
    ensures actions != [] ==>
      RunSteps(START, actions[..|actions| - 1], retained).store.currentEpoch
      <= RunSteps(START, actions, retained).store.currentEpoch
  {
    hide GoodBucket, Commit, Cleanup;
    if actions == [] {
      return;
    }
    var n := |actions| - 1;
    InterleavingsStayConsistent(actions[..n], retained);
    var y := RunSteps(START, actions[..n], retained);
    StepKeepsConsistent(y, actions[n], retained);
  }

  lemma {:induction false} StepKeepsConsistent(y: System, a: Action, retained: nat)
    requires Consistent(y.store)
    ensures Consistent(Step(y, a, retained).store)
    ensures y.store.currentEpoch <= Step(y, a, retained).store.currentEpoch
  {
    hide GoodBucket;
    match a {
      case Check(_) =>
      case Finish(e) => CommitKeepsConsistent(y.store, e);
      case SetEpoch(_) =>
      case Sweep(n) => CleanupKeeps(y.store, n, retained);
    }
  }

  /** Two callers that both pass the check before either commits record one id twice. */
  lemma {:induction false} RaceRecordsTwice(e: WorkEvent, retained: nat)
    ensures var y := RunSteps(START, [Check(e), Check(e), Finish(e), Finish(e)], retained);
            y.store == Commit(Commit(EMPTY, e), e) && !Unique(y.store)
  {
    hide *;
    RunStepsAppend(START, [], Check(e), retained);
    RunStepsAppend(START, [Check(e)], Check(e), retained);
    RunStepsAppend(START, [Check(e), Check(e)], Finish(e), retained);
    RunStepsAppend(START, [Check(e), Check(e), Finish(e)], Finish(e), retained);
    assert [] + [Check(e)] == [Check(e)] && [Check(e)] + [Check(e)] == [Check(e), Check(e)];
    assert [Check(e), Check(e)] + [Finish(e)] == [Check(e), Check(e), Finish(e)];
    assert [Check(e), Check(e), Finish(e)] + [Finish(e)] == [Check(e), Check(e), Finish(e), Finish(e)];
    RaceSteps(e, retained);
    CommittedTwice(e);
  }

  lemma RaceSteps(e: WorkEvent, retained: nat)
    ensures var y2 := Step(Step(START, Check(e), retained), Check(e), retained);
            Step(Step(y2, Finish(e), retained), Finish(e), retained).store == Commit(Commit(EMPTY, e), e)
  {
    hide Commit;
    assert multiset{e, e} - multiset{e} == multiset{e};
  }

  lemma CommittedTwice(e: WorkEvent)
    ensures !Unique(Commit(Commit(EMPTY, e), e))
  {
    var events := Commit(Commit(EMPTY, e), e).events[EpochOf(e)];
    assert events[0].eventId == events[1].eventId;
  }

  lemma {:induction false} RunStepsAppend(y: System, actions: seq<Action>, a: Action, retained: nat)
    ensures RunSteps(y, [], retained) == y
    ensures RunSteps(y, actions + [a], retained) == Step(RunSteps(y, actions, retained), a, retained)
  {
    hide Step;
    assert (actions + [a])[..|actions|] == actions;
  }

  // ---------- when runs are free of duplicates ----------

  ghost predicate SameKey(e: WorkEvent, f: WorkEvent) {
    EpochOf(e) == EpochOf(f) && e.eventId == f.eventId
  }

  /** A call for this id and epoch is between its check and its commit. */
  ghost predicate InFlight(y: System, e: WorkEvent) {
    exists f :: f in y.checked && SameKey(e, f)
  }

  /** The call starts although another for its id and epoch is in flight, and both pass the check. */
  ghost predicate Races(y: System, a: Action) {
    a.Check? && !IsDuplicate(y.store, a.event) && InFlight(y, a.event)
  }

  /** No call is started for an id and epoch that is in flight. */
  ghost predicate Calm(actions: seq<Action>, retained: nat) {
    forall k | 0 <= k < |actions| :: !Races(RunSteps(START, actions[..k], retained), actions[k])
  }

  /** Ids are unique, and every event in flight is unseen and alone with its id. */
  ghost predicate RaceFree(y: System) {
    && Consistent(y.store) && Unique(y.store)
    && (forall e | e in y.checked :: !IsDuplicate(y.store, e) && y.checked[e] == 1)
    && forall e, f | e in y.checked && f in y.checked && SameKey(e, f) :: e == f
  }

  lemma {:induction false} CommitLeavesOthersUnseen(s: Store, e: WorkEvent, f: WorkEvent)
    requires !IsDuplicate(s, f) && !SameKey(e, f)
    ensures !IsDuplicate(Commit(s, e), f)
  {
  }

  lemma {:induction false} CalmStep(y: System, a: Action, retained: nat)
    requires RaceFree(y) && !Races(y, a)
    ensures RaceFree(Step(y, a, retained))
  {
    hide GoodBucket, Unique, DistinctIds;
    StepKeepsConsistent(y, a, retained);
    match a {
      case Check(e) =>
        if !IsDuplicate(y.store, e) {
          assert e !in y.checked;
        }
      case Finish(e) =>
        if e in y.checked {
          CommitKeepsUniqueIffUnseen(y.store, e);
          forall f | f in y.checked - multiset{e}
            ensures !IsDuplicate(Commit(y.store, e), f)
          {
            CommitLeavesOthersUnseen(y.store, e, f);
          }
        }
      case SetEpoch(n) =>
        EpochKeepsUnique(y.store, n);
      case Sweep(n) =>
        CleanupKeeps(y.store, n, retained);
    }
  }

  lemma EpochKeepsUnique(s: Store, n: nat)
    requires Unique(s)
    ensures Unique(s.(currentEpoch := n))
  {
  }

  /** A calm run never records an id twice. */
  lemma {:induction false} CalmRunsAreUnique(actions: seq<Action>, retained: nat)
    requires Calm(actions, retained)
    ensures RaceFree(RunSteps(START, actions, retained))
  {
    hide RaceFree, Races, Step;
    if actions == [] {
      StartIsRaceFree();
    } else {
      var n := |actions| - 1;
      assert forall k | 0 <= k < n :: actions[..n][..k] == actions[..k];
      CalmRunsAreUnique(actions[..n], retained);
      CalmStep(RunSteps(START, actions[..n], retained), actions[n], retained);
    }
  }

  lemma StartIsRaceFree()
    ensures RaceFree(START)
  {
  }

  ghost predicate OnlyFinishes(tail: seq<Action>) {
    forall a | a in tail :: a.Finish?
  }

  lemma {:induction false} FinishingStaysCalm(actions: seq<Action>, k: nat, tail: seq<Action>, retained: nat)
    requires Calm(actions, retained) && k <= |actions| && OnlyFinishes(tail)
    ensures Calm(actions[..k] + tail, retained)
  {
    hide RunSteps;
    var run := actions[..k] + tail;
    forall i | 0 <= i < |run|
      ensures !Races(RunSteps(START, run[..i], retained), run[i])
    {
      if i < k {
        assert run[..i] == actions[..i];
      } else {
        assert run[i] in tail;
      }
    }
  }

  /** Letting two calls for one id finish after both passed the check records it twice. */
  lemma {:induction false} RaceThenFinish(y: System, e: WorkEvent, f: WorkEvent, retained: nat)
    requires !IsDuplicate(y.store, e) && f in y.checked && SameKey(e, f)
    ensures !Unique(Step(Step(Step(y, Check(e), retained), Finish(f), retained), Finish(e), retained).store)
  {
    var y1 := Step(y, Check(e), retained);
    var y2 := Step(y1, Finish(f), retained);
    assert e in y2.checked;
    var epoch := EpochOf(e);
    var was := Bucket(y.store.events, epoch);
    assert Step(y2, Finish(e), retained).store.events[epoch] == was + [f] + [e];
    var bucket := was + [f] + [e];
    assert bucket[|was|].eventId == bucket[|was| + 1].eventId;
  }

  /** Any state with a race can go on to a duplicate just by letting calls finish. */
  lemma {:induction false} RaceLeadsToDuplicate(actions: seq<Action>, k: nat, retained: nat) returns (tail: seq<Action>)
    requires k < |actions| && Races(RunSteps(START, actions[..k], retained), actions[k])
    ensures OnlyFinishes(tail) && !Unique(RunSteps(START, actions[..k + 1] + tail, retained).store)
  {
    hide Step, Unique;
    var y := RunSteps(START, actions[..k], retained);
    var e := actions[k].event;
    var f :| f in y.checked && SameKey(e, f);
    tail := [Finish(f), Finish(e)];
    assert actions[..k + 1] == actions[..k] + [actions[k]];
    RunStepsAppend(START, actions[..k], actions[k], retained);
    RunStepsAppend(START, actions[..k + 1], Finish(f), retained);
    RunStepsAppend(START, actions[..k + 1] + [Finish(f)], Finish(e), retained);
    assert actions[..k + 1] + [Finish(f)] + [Finish(e)] == actions[..k + 1] + tail;
    RaceThenFinish(y, e, f, retained);
  }

  /**
   No moment of a run can be followed, by calls merely finishing, by a store that holds an id
   twice, if and only if no call was started for an id and epoch in flight.
   */
  lemma {:induction false} UniqueIffCalm(actions: seq<Action>, retained: nat)
    ensures Calm(actions, retained) <==>
      forall k, tail | 0 <= k <= |actions| && OnlyFinishes(tail) ::
        Unique(RunSteps(START, actions[..k] + tail, retained).store)
  {
    hide RunSteps, Unique, OnlyFinishes, Races;
    if Calm(actions, retained) {
      forall k, tail | 0 <= k <= |actions| && OnlyFinishes(tail)
        ensures Unique(RunSteps(START, actions[..k] + tail, retained).store)
      {
        FinishingStaysCalm(actions, k, tail, retained);
        CalmRunsAreUnique(actions[..k] + tail, retained);
      }
    } else {
      var k :| 0 <= k < |actions| && Races(RunSteps(START, actions[..k], retained), actions[k]);
      var tail := RaceLeadsToDuplicate(actions, k, retained);
      assert 0 <= k + 1 <= |actions| && !Unique(RunSteps(START, actions[..k + 1] + tail, retained).store);
    }
  }

  // ---------- when an id can be recorded again ----------

  /** The action takes effect in this state. */
  predicate Enabled(y: System, a: Action) {
    match a
    case Check(e) => !IsDuplicate(y.store, e)
    case Finish(e) => e in y.checked
    case SetEpoch(n) => n > y.store.currentEpoch
    case Sweep(n) => n in y.toSweep
  }

  /** The id was recorded and its epoch has not been swept since. */
  ghost predicate OnRecord(actions: seq<Action>, retained: nat, e: WorkEvent) {
    actions != [] &&
    var k := |actions| - 1;
    var a := actions[k];
    if Enabled(RunSteps(START, actions[..k], retained), a) && a.Finish? && SameKey(a.event, e) then true
    else if Enabled(RunSteps(START, actions[..k], retained), a) && a.Sweep? && EpochOf(e) + retained < a.epoch then false
    else OnRecord(actions[..k], retained, e)
  }

  lemma {:induction false} CommitMarks(s: Store, f: WorkEvent, e: WorkEvent)
    ensures IsDuplicate(Commit(s, f), e) <==> SameKey(f, e) || IsDuplicate(s, e)
  {
  }

  lemma {:induction false} CleanupForgets(s: Store, n: nat, retained: nat, e: WorkEvent)
    requires Consistent(s)
    ensures IsDuplicate(Cleanup(s, n, retained), e) <==> IsDuplicate(s, e) && !(EpochOf(e) + retained < n)
  {
    hide GoodBucket;
  }

  lemma {:induction false} RecordStep(y: System, a: Action, retained: nat, e: WorkEvent)
    requires Consistent(y.store)
    ensures IsDuplicate(Step(y, a, retained).store, e) <==>
      if Enabled(y, a) && a.Finish? && SameKey(a.event, e) then true
      else if Enabled(y, a) && a.Sweep? && EpochOf(e) + retained < a.epoch then false
      else IsDuplicate(y.store, e)
  {
    hide Consistent, Commit, Cleanup;
    match a {
      case Check(_) =>
      case Finish(f) => CommitMarks(y.store, f, e);
      case SetEpoch(_) =>
      case Sweep(n) => CleanupForgets(y.store, n, retained, e);
    }
  }

  /**
   After any run a further call for an id passes its duplicate check if and only if the id was
   never recorded, or its epoch was swept since: `record_event` does not look at the cutoff.
   */
  lemma {:induction false} RecordableIff(actions: seq<Action>, retained: nat, e: WorkEvent)
    ensures Enabled(RunSteps(START, actions, retained), Check(e)) <==> !OnRecord(actions, retained, e)
  {
    if actions != [] {
      var k := |actions| - 1;
      RecordableIff(actions[..k], retained, e);
      InterleavingsStayConsistent(actions[..k], retained);
      hide Step, Consistent, IsDuplicate;
      RecordStep(RunSteps(START, actions[..k], retained), actions[k], retained, e);
    }
  }

  lemma {:induction false} SweepThenRecord(y: System, retained: nat, e: WorkEvent, n: nat)
    requires Consistent(y.store) && n in y.toSweep && EpochOf(e) + retained < n
    ensures var z := Step(Step(Step(y, Sweep(n), retained), Check(e), retained), Finish(e), retained);
            EpochOf(e) in z.store.events && e in z.store.events[EpochOf(e)]
  {
    hide Consistent, Cleanup;
    CleanupForgets(y.store, n, retained, e);
    var y2 := Step(Step(y, Sweep(n), retained), Check(e), retained);
    assert e in y2.checked;
    var bucket := Bucket(y2.store.events, EpochOf(e)) + [e];
    assert bucket[|bucket| - 1] == e;
  }

  /** So an event whose epoch was swept is recorded again, in an epoch that the sweep had closed. */
  lemma {:induction false} SweptIsRecordedAgain(actions: seq<Action>, retained: nat, e: WorkEvent, n: nat)
    requires n in RunSteps(START, actions, retained).toSweep && EpochOf(e) + retained < n
    ensures var y := RunSteps(START, actions + [Sweep(n), Check(e), Finish(e)], retained);
            EpochOf(e) in y.store.events && e in y.store.events[EpochOf(e)]
  {
    hide *;
    var a1, a2 := actions + [Sweep(n)], actions + [Sweep(n)] + [Check(e)];
    InterleavingsStayConsistent(actions, retained);
    RunStepsAppend(START, actions, Sweep(n), retained);
    RunStepsAppend(START, a1, Check(e), retained);
    RunStepsAppend(START, a2, Finish(e), retained);
    assert a2 + [Finish(e)] == actions + [Sweep(n), Check(e), Finish(e)];
    SweepThenRecord(RunSteps(START, actions, retained), retained, e, n);
  }

  // ---------- persistence ----------

  datatype Persisted = Persisted(
    currentEpoch: nat,
    events: seq<(nat, seq<WorkEvent>)>,
    seen: seq<(nat, seq<string>)>)

  ghost predicate Enumerates<V>(pairs: seq<(nat, V)>, m: map<nat, V>) {
    && (forall i, j | 0 <= i < j < |pairs| :: pairs[i].0 != pairs[j].0)
    && (forall i | 0 <= i < |pairs| :: pairs[i].0 in m && m[pairs[i].0] == pairs[i].1)
    && (forall k | k in m :: exists i | 0 <= i < |pairs| :: pairs[i].0 == k)
  }

  ghost predicate IsHexOf(text: string, ids: set<EventId>) {
    exists id: EventId :: id in ids && text == HexEncode(id)
  }

  /** The hex texts are those of the ids, in any order. */
  ghost predicate HexesOf(hexes: seq<string>, ids: set<EventId>) {
    && (forall i | 0 <= i < |hexes| :: IsHexOf(hexes[i], ids))
    && (forall id | id in ids :: HexEncode(id) in hexes)
  }

  /** `p` is one of the texts `save_state` may write, whatever order the hash maps iterate in. */
  ghost predicate Saves(p: Persisted, s: Store) {
    && p.currentEpoch == s.currentEpoch
    && Enumerates(p.events, s.events)
    && (forall i, j | 0 <= i < j < |p.seen| :: p.seen[i].0 != p.seen[j].0)
    && (forall i | 0 <= i < |p.seen| :: p.seen[i].0 in s.seen && HexesOf(p.seen[i].1, s.seen[p.seen[i].0]))
    && (forall k | k in s.seen :: exists i | 0 <= i < |p.seen| :: p.seen[i].0 == k)
  }

  /** Restoring one epoch's ids: texts that are not 32 bytes of hex are dropped. */
  function DecodeIds(hexes: seq<string>): set<EventId> {
    if hexes == [] then {}
    else
      var rest := DecodeIds(hexes[..|hexes| - 1]);
      var bytes := HexDecode(hexes[|hexes| - 1]);
      if bytes.Some? && |bytes.value| == 32 then rest + {bytes.value} else rest
  }

  function LoadEvents(pairs: seq<(nat, seq<WorkEvent>)>): Buckets {
    if pairs == [] then map[] else LoadEvents(pairs[..|pairs| - 1])[pairs[|pairs| - 1].0 := pairs[|pairs| - 1].1]
  }

  function LoadSeen(pairs: seq<(nat, seq<string>)>): Seen {
    if pairs == [] then map[] else LoadSeen(pairs[..|pairs| - 1])[pairs[|pairs| - 1].0 := DecodeIds(pairs[|pairs| - 1].1)]
  }

  /** Of several entries for one epoch the last one counts. */
  lemma {:induction false} LastEntryCounts(p: Persisted, i: nat)
    ensures i < |p.events| && (forall j | i < j < |p.events| :: p.events[j].0 != p.events[i].0) ==>
      p.events[i].0 in Load(p).events && Load(p).events[p.events[i].0] == p.events[i].1
    ensures i < |p.seen| && (forall j | i < j < |p.seen| :: p.seen[j].0 != p.seen[i].0) ==>
      p.seen[i].0 in Load(p).seen && Load(p).seen[p.seen[i].0] == DecodeIds(p.seen[i].1)
  {
    hide DecodeIds;
    LastEventsCount(p.events, i);
    LastSeenCounts(p.seen, i);
  }

  lemma {:induction false} LastEventsCount(pairs: seq<(nat, seq<WorkEvent>)>, i: nat)
    ensures i < |pairs| && (forall j | i < j < |pairs| :: pairs[j].0 != pairs[i].0) ==>
      pairs[i].0 in LoadEvents(pairs) && LoadEvents(pairs)[pairs[i].0] == pairs[i].1
  {
    if i < |pairs| - 1 {
      LastEventsCount(pairs[..|pairs| - 1], i);
    }
  }

  lemma {:induction false} LastSeenCounts(pairs: seq<(nat, seq<string>)>, i: nat)
    ensures i < |pairs| && (forall j | i < j < |pairs| :: pairs[j].0 != pairs[i].0) ==>
      pairs[i].0 in LoadSeen(pairs) && LoadSeen(pairs)[pairs[i].0] == DecodeIds(pairs[i].1)
  {
    hide DecodeIds;
    if i < |pairs| - 1 {
      LastSeenCounts(pairs[..|pairs| - 1], i);
    }
  }

  /** `load_state`. */
  function Load(p: Persisted): Store {
    Store(LoadEvents(p.events), LoadSeen(p.seen), p.currentEpoch)
  }

  lemma {:induction false} DecodedIds(hexes: seq<string>, id: EventId)
    ensures id in DecodeIds(hexes) <==> exists i | 0 <= i < |hexes| :: HexDecode(hexes[i]) == Some(id)
  {
    hide HexDecode;
    if hexes != [] {
      var n := |hexes| - 1;
      DecodedIds(hexes[..n], id);
      assert forall i | 0 <= i < n :: hexes[..n][i] == hexes[i];
    }
  }

  lemma {:induction false} IdsRoundTrip(hexes: seq<string>, ids: set<EventId>)
    requires HexesOf(hexes, ids)
    ensures DecodeIds(hexes) == ids
  {
    hide HexDecode, HexEncode, DecodeIds;
    forall id: EventId
      ensures id in DecodeIds(hexes) <==> id in ids
    {
      DecodedIds(hexes, id);
      if id in DecodeIds(hexes) {
        var i :| 0 <= i < |hexes| && HexDecode(hexes[i]) == Some(id);
        assert IsHexOf(hexes[i], ids);
        var d: EventId :| d in ids && hexes[i] == HexEncode(d);
        HexRoundTrip(d);
      }
      if id in ids {
        assert HexEncode(id) in hexes;
        var i :| 0 <= i < |hexes| && hexes[i] == HexEncode(id);
        HexRoundTrip(id);
      }
    }
  }

  lemma {:induction false} LoadedEvents(pairs: seq<(nat, seq<WorkEvent>)>)
    requires forall i, j | 0 <= i < j < |pairs| :: pairs[i].0 != pairs[j].0
    ensures forall i | 0 <= i < |pairs| :: pairs[i].0 in LoadEvents(pairs) && LoadEvents(pairs)[pairs[i].0] == pairs[i].1
    ensures forall k | k in LoadEvents(pairs) :: exists i | 0 <= i < |pairs| :: pairs[i].0 == k
  {
    if pairs != [] {
      var n := |pairs| - 1;
      LoadedEvents(pairs[..n]);
      forall k | k in LoadEvents(pairs)
        ensures exists i | 0 <= i < |pairs| :: pairs[i].0 == k
      {
        if k != pairs[n].0 {
          var i :| 0 <= i < n && pairs[..n][i].0 == k;
          assert pairs[i].0 == k;
        }
      }
      forall i | 0 <= i < |pairs|
        ensures pairs[i].0 in LoadEvents(pairs) && LoadEvents(pairs)[pairs[i].0] == pairs[i].1
      {
        if i < n {
          assert pairs[..n][i] == pairs[i];
        }
      }
    }
  }

  lemma {:induction false} LoadedSeen(pairs: seq<(nat, seq<string>)>)
    requires forall i, j | 0 <= i < j < |pairs| :: pairs[i].0 != pairs[j].0
    ensures forall i | 0 <= i < |pairs| :: pairs[i].0 in LoadSeen(pairs) && LoadSeen(pairs)[pairs[i].0] == DecodeIds(pairs[i].1)
    ensures forall k | k in LoadSeen(pairs) :: exists i | 0 <= i < |pairs| :: pairs[i].0 == k
  {
    hide DecodeIds;
    if pairs != [] {
      var n := |pairs| - 1;
      LoadedSeen(pairs[..n]);
      forall k | k in LoadSeen(pairs)
        ensures exists i | 0 <= i < |pairs| :: pairs[i].0 == k
      {
        if k != pairs[n].0 {
          var i :| 0 <= i < n && pairs[..n][i].0 == k;
          assert pairs[i].0 == k;
        }
      }
      forall i | 0 <= i < |pairs|
        ensures pairs[i].0 in LoadSeen(pairs) && LoadSeen(pairs)[pairs[i].0] == DecodeIds(pairs[i].1)
      {
        if i < n {
          assert pairs[..n][i] == pairs[i];
        }
      }
    }
  }

  /** Whatever order was written, loading restores the store exactly. */
  lemma {:induction false} SaveLoadRoundTrip(p: Persisted, s: Store)
    requires Saves(p, s)
    ensures Load(p) == s
  {
    hide HexesOf, DecodeIds, LoadEvents, LoadSeen;
    LoadedEvents(p.events);
    LoadedSeen(p.seen);
    assert LoadEvents(p.events).Keys == s.events.Keys;
    assert LoadEvents(p.events) == s.events;
    assert LoadSeen(p.seen).Keys == s.seen.Keys;
    forall k | k in s.seen
      ensures LoadSeen(p.seen)[k] == s.seen[k]
    {
      var i :| 0 <= i < |p.seen| && p.seen[i].0 == k;
      IdsRoundTrip(p.seen[i].1, s.seen[k]);
    }
    assert LoadSeen(p.seen) == s.seen;
  }

  // ---------- the store object ----------

  /** The number of places where the relay's events stand. */
  lemma {:induction false} CountRelayCounts(events: seq<WorkEvent>, relay: string)
    ensures CountRelay(events, relay) == |set i | 0 <= i < |events| && events[i].relayId == relay|
  {
    var places := set i | 0 <= i < |events| && events[i].relayId == relay;
    if events != [] {
      var n := |events| - 1;
      CountRelayCounts(events[..n], relay);
      var before := set i | 0 <= i < n && events[..n][i].relayId == relay;
      assert places == before + if events[n].relayId == relay then {n} else {};
    }
  }

  ghost function CountRelay(events: seq<WorkEvent>, relay: string): nat {
    if events == [] then 0
    else
      var n := |events| - 1;
      CountRelay(events[..n], relay) + if events[n].relayId == relay then 1 else 0
  }

  class RelayWorkEventStore {
    var eventsByEpoch: Buckets
    var seenEvents: Seen
    var currentEpoch: nat
    const maxRetainedEpochs: nat
    /** Whether a file is configured, and what it holds. */
    const persistent: bool
    var file: Option<Persisted>

    function View(): Store
      reads this
    {
      Store(eventsByEpoch, seenEvents, currentEpoch)
    }

    constructor (retention: nat, persistent: bool, file: Option<Persisted>)
      ensures View() == EMPTY && maxRetainedEpochs == retention && this.persistent == persistent && this.file == file
      ensures Consistent(View()) && Unique(View())
    {
      eventsByEpoch, seenEvents, currentEpoch := map[], map[], 0;
      maxRetainedEpochs, this.persistent, this.file := retention, persistent, file;
    }

    /** `record_event` without interference: recorded exactly when the id is new in its epoch. */
    method RecordEvent(event: WorkEvent) returns (recorded: bool)
      modifies this`eventsByEpoch, this`seenEvents
      ensures recorded <==> !(event.blockHeight / 1800 in old(seenEvents) && event.eventId in old(seenEvents)[event.blockHeight / 1800])
      ensures !recorded ==> eventsByEpoch == old(eventsByEpoch) && seenEvents == old(seenEvents)
      ensures recorded ==>
        var epoch := event.blockHeight / 1800;
        && eventsByEpoch.Keys == old(eventsByEpoch).Keys + {epoch} && seenEvents.Keys == old(seenEvents).Keys + {epoch}
        && eventsByEpoch[epoch] == (if epoch in old(eventsByEpoch) then old(eventsByEpoch)[epoch] else []) + [event]
        && seenEvents[epoch] == (if epoch in old(seenEvents) then old(seenEvents)[epoch] else {}) + {event.eventId}
        && (forall k | k in old(eventsByEpoch) && k != epoch :: eventsByEpoch[k] == old(eventsByEpoch)[k])
        && forall k | k in old(seenEvents) && k != epoch :: seenEvents[k] == old(seenEvents)[k]
      ensures View() == if recorded then Commit(old(View()), event) else old(View())
      ensures old(Consistent(View())) ==> Consistent(View())
      ensures old(Consistent(View()) && Unique(View())) ==> Unique(View())
    {
      hide GoodBucket, DistinctIds;
      var epoch := EpochOf(event);
      if epoch in seenEvents && event.eventId in seenEvents[epoch] {
        return false;
      }
      if Consistent(View()) {
        CommitKeepsConsistent(View(), event);
        if Unique(View()) {
          CommitKeepsUniqueIffUnseen(View(), event);
        }
      }
      seenEvents := seenEvents[epoch := SeenIn(seenEvents, epoch) + {event.eventId}];
      eventsByEpoch := eventsByEpoch[epoch := Bucket(eventsByEpoch, epoch) + [event]];
      recorded := true;
    }

    /**
     `set_current_epoch`: only forward, sweeping what falls out of the retention window and, if the
     file can be written, leaving a file from which the new state can be restored.
     */
    method SetCurrentEpoch(epoch: nat, writable: bool)
      modifies this
      ensures old(Consistent(View())) ==> Consistent(View())
      ensures old(Consistent(View()) && Unique(View())) ==> Unique(View())
      ensures View() == if epoch > old(currentEpoch)
                        then Cleanup(old(View()), epoch, maxRetainedEpochs).(currentEpoch := epoch)
                        else old(View())
      ensures epoch > old(currentEpoch) && epoch > maxRetainedEpochs ==>
        forall k | k in eventsByEpoch :: k >= epoch - maxRetainedEpochs
      ensures if epoch > old(currentEpoch) && persistent && writable then file.Some? && Load(file.value) == View()
              else file == old(file)
    {
      hide GoodBucket, DistinctIds, Saves, Load;
      if epoch > currentEpoch {
        if Consistent(View()) {
          CleanupKeeps(View(), epoch, maxRetainedEpochs);
        }
        currentEpoch := epoch;
        CleanupOldEpochs(epoch);
        if persistent && writable {
          var p := SaveState();
          SaveLoadRoundTrip(p, View());
          file := Some(p);
        }
      }
    }

    /** The sweep loop of `cleanup_old_epochs`. */
    method CleanupOldEpochs(epoch: nat)
      modifies this`eventsByEpoch, this`seenEvents
      ensures View() == Cleanup(old(View()), epoch, maxRetainedEpochs)
      ensures forall k :: k in eventsByEpoch <==> k in old(eventsByEpoch) && epoch <= k + maxRetainedEpochs
      ensures forall k :: k in seenEvents <==> k in old(seenEvents) && (k in old(eventsByEpoch) ==> epoch <= k + maxRetainedEpochs)
    {
      if epoch <= maxRetainedEpochs {
        return;
      }
      var cutoff := epoch - maxRetainedEpochs;
      var toRemove := set k | k in eventsByEpoch.Keys && k < cutoff;
      ghost var all := toRemove;
      while toRemove != {}
        invariant toRemove <= all
        invariant eventsByEpoch == old(eventsByEpoch) - (all - toRemove)
        invariant seenEvents == old(seenEvents) - (all - toRemove)
        decreases toRemove
      {
        var k :| k in toRemove;
        eventsByEpoch := eventsByEpoch - {k};
        seenEvents := seenEvents - {k};
        toRemove := toRemove - {k};
      }
      assert all - {} == all;
    }

    /** `events_per_relay_for_epoch`: the counts partition the bucket. */
    method EventsPerRelay(epoch: nat) returns (counts: map<string, nat>)
      ensures forall r :: r in counts <==> CountRelay(Bucket(eventsByEpoch, epoch), r) > 0
      ensures forall r | r in counts :: counts[r] == CountRelay(Bucket(eventsByEpoch, epoch), r)
      ensures Sum(counts) == |Bucket(eventsByEpoch, epoch)|
    {
      hide Sum;
      counts := map[];
      var events := Bucket(eventsByEpoch, epoch);
      EmptySum();
      for i := 0 to |events|
        invariant forall r :: r in counts <==> CountRelay(events[..i], r) > 0
        invariant forall r | r in counts :: counts[r] == CountRelay(events[..i], r)
        invariant Sum(counts) == i
      {
        assert events[..i + 1][..i] == events[..i];
        var r := events[i].relayId;
        SumUpdate(counts, r, Lookup(counts, r) + 1);
        counts := counts[r := Lookup(counts, r) + 1];
      }
      assert events[..|events|] == events;
    }

    /** `save_state`, iterating the maps in an arbitrary order. */
    method SaveState() returns (p: Persisted)
      ensures Saves(p, View())
    {
      hide HexesOf;
      var events: seq<(nat, seq<WorkEvent>)> := [];
      var left := eventsByEpoch.Keys;
      while left != {}
        invariant left <= eventsByEpoch.Keys
        invariant forall i | 0 <= i < |events| ::
          events[i].0 in eventsByEpoch && events[i].0 !in left && eventsByEpoch[events[i].0] == events[i].1
        invariant forall i, j | 0 <= i < j < |events| :: events[i].0 != events[j].0
        invariant forall k | k in eventsByEpoch && k !in left :: exists i | 0 <= i < |events| :: events[i].0 == k
        decreases left
      {
        var k :| k in left;
        ghost var before := events;
        events := events + [(k, eventsByEpoch[k])];
        left := left - {k};
        assert events[|before|].0 == k;
        assert forall i | 0 <= i < |before| :: events[i] == before[i];
      }
      var seen := SaveSeen();
      p := Persisted(currentEpoch, events, seen);
    }

    method SaveSeen() returns (seen: seq<(nat, seq<string>)>)
      ensures forall i, j | 0 <= i < j < |seen| :: seen[i].0 != seen[j].0
      ensures forall i | 0 <= i < |seen| :: seen[i].0 in seenEvents && HexesOf(seen[i].1, seenEvents[seen[i].0])
      ensures forall k | k in seenEvents :: exists i | 0 <= i < |seen| :: seen[i].0 == k
    {
      hide HexesOf;
      seen := [];
      var left := seenEvents.Keys;
      while left != {}
        invariant left <= seenEvents.Keys
        invariant forall i | 0 <= i < |seen| ::
          seen[i].0 in seenEvents && seen[i].0 !in left && HexesOf(seen[i].1, seenEvents[seen[i].0])
        invariant forall i, j | 0 <= i < j < |seen| :: seen[i].0 != seen[j].0
        invariant forall k | k in seenEvents && k !in left :: exists i | 0 <= i < |seen| :: seen[i].0 == k
        decreases left
      {
        var k :| k in left;
        var hexes := EncodeIds(seenEvents[k]);
        ghost var before := seen;
        seen := seen + [(k, hexes)];
        left := left - {k};
        assert seen[|before|].0 == k;
        assert forall i | 0 <= i < |before| :: seen[i] == before[i];
      }
    }

    static method EncodeIds(ids: set<EventId>) returns (hexes: seq<string>)
      ensures HexesOf(hexes, ids)
    {
      hide HexEncode;
      hexes := [];
      var left := ids;
      while left != {}
        invariant left <= ids
        invariant forall i | 0 <= i < |hexes| :: IsHexOf(hexes[i], ids)
        invariant forall id | id in ids && id !in left :: HexEncode(id) in hexes
        decreases left
      {
        var id :| id in left;
        assert IsHexOf(HexEncode(id), ids);
        hexes := hexes + [HexEncode(id)];
        left := left - {id};
      }
    }

    /** `load_state` on parsed JSON. */
    method LoadState(p: Persisted)
      modifies this`currentEpoch, this`eventsByEpoch, this`seenEvents
      ensures View() == Load(p)
    {
      hide DecodeIds;
      currentEpoch := p.currentEpoch;
      eventsByEpoch := map[];
      for i := 0 to |p.events|
        invariant eventsByEpoch == LoadEvents(p.events[..i]) && currentEpoch == p.currentEpoch
      {
        assert p.events[..i + 1][..i] == p.events[..i];
        eventsByEpoch := eventsByEpoch[p.events[i].0 := p.events[i].1];
      }
      assert p.events[..|p.events|] == p.events;
      seenEvents := map[];
      for i := 0 to |p.seen|
        invariant seenEvents == LoadSeen(p.seen[..i])
        invariant eventsByEpoch == LoadEvents(p.events) && currentEpoch == p.currentEpoch
      {
        assert p.seen[..i + 1][..i] == p.seen[..i];
        var ids := RestoreIds(p.seen[i].1);
        seenEvents := seenEvents[p.seen[i].0 := ids];
      }
      assert p.seen[..|p.seen|] == p.seen;
    }

    static method RestoreIds(hexes: seq<string>) returns (ids: set<EventId>)
      ensures ids == DecodeIds(hexes)
    {
      hide HexDecode;
      ids := {};
      for i := 0 to |hexes|
        invariant ids == DecodeIds(hexes[..i])
      {
        assert hexes[..i + 1][..i] == hexes[..i];
        var bytes := HexDecode(hexes[i]);
        if bytes.Some? {
          if |bytes.value| == 32 {
            ids := ids + {bytes.value};
          }
        }
      }
      assert hexes[..|hexes|] == hexes;
    }
  }

  lemma EmptySum()
    ensures Sum<string>(map[]) == 0
  {
  }
}
