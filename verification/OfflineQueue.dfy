/**
 The light client's offline queue (`light_client.rs`): queueing while not ready, and the drain
 loop that gives up its lock around every send.
 */
module OfflineQueue {
  import opened Bytes

  const MAX_ATTEMPTS: nat := 5

  datatype ConnectionState = Disconnected | Connecting | Connected | Syncing | Ready

  datatype Operation = ChannelMessage(channelId: string, content: Bytes) | DirectMessage(recipientId: Bytes, content: Bytes)

  datatype QueuedOp = QueuedOp(id: nat, operation: Operation, retryCount: nat, lastAttempt: Option<int>)

  // ---------- what happens to one operation in `Ready` ----------

  datatype Fate = Sent | Failed | Kept(op: QueuedOp)

  /** A direct message without a fee gateway fails for good; otherwise the send decides. */
  function FateOf(op: QueuedOp, feeGated: bool, ok: bool, now: int): Fate {
    if op.operation.DirectMessage? && !feeGated then Failed
    else if ok then Sent
    else if op.retryCount + 1 < MAX_ATTEMPTS then Kept(op.(retryCount := op.retryCount + 1, lastAttempt := Some(now)))
    else Failed
  }

  /** Sent if it could be and was; kept with one more attempt if that is below five; failed otherwise. */
  ghost predicate Disposed(op: QueuedOp, sendable: bool, sent: bool, now: int, fate: Fate) {
    && (fate == Sent <==> sendable && sent)
    && (fate.Kept? <==> sendable && !sent && op.retryCount < 4)
    && (fate.Kept? ==> fate.op == QueuedOp(op.id, op.operation, op.retryCount + 1, Some(now)))
  }

  lemma FateDisposes(op: QueuedOp, feeGated: bool, sent: bool, now: int)
    ensures Disposed(op, op.operation.ChannelMessage? || feeGated, sent, now, FateOf(op, feeGated, sent, now))
  {
  }

  lemma {:induction false} AllDisposed(queue: seq<QueuedOp>, feeGated: bool, state: ConnectionState, w: Sends)
    ensures var fs := Fates(queue, feeGated, EffectiveSends(state, w));
            forall i | 0 <= i < |queue| ::
              Disposed(queue[i], queue[i].operation.ChannelMessage? || feeGated, state == Ready && w.ok(i), w.clock(i), fs[i])
  {
    hide Fates, FateOf, Disposed;
    forall i | 0 <= i < |queue|
      ensures Disposed(queue[i], queue[i].operation.ChannelMessage? || feeGated, state == Ready && w.ok(i), w.clock(i),
                       Fates(queue, feeGated, EffectiveSends(state, w))[i])
    {
      FateDisposes(queue[i], feeGated, state == Ready && w.ok(i), w.clock(i));
    }
  }

  /** Outcome and clock of each send, by position in the queue. */
  datatype Sends = Sends(ok: nat -> bool, clock: nat -> int)

  function Fates(queue: seq<QueuedOp>, feeGated: bool, w: Sends): (fs: seq<Fate>)
    ensures |fs| == |queue|
    ensures forall i | 0 <= i < |queue| :: fs[i] == FateOf(queue[i], feeGated, w.ok(i), w.clock(i))
  {
    if queue == [] then []
    else
      var n := |queue| - 1;
      Fates(queue[..n], feeGated, w) + [FateOf(queue[n], feeGated, w.ok(n), w.clock(n))]
  }

  function KeptOps(fs: seq<Fate>): seq<QueuedOp> {
    if fs == [] then []
    else KeptOps(fs[..|fs| - 1]) + if fs[|fs| - 1].Kept? then [fs[|fs| - 1].op] else []
  }

  /** The ids whose fate is the given one, in queue order. */
  function IdsWith(queue: seq<QueuedOp>, fs: seq<Fate>, fate: Fate): seq<nat>
    requires |queue| == |fs|
  {
    if fs == [] then []
    else
      var n := |fs| - 1;
      IdsWith(queue[..n], fs[..n], fate) + if fs[n] == fate then [queue[n].id] else []
  }

  function IdsOf(queue: seq<QueuedOp>): seq<nat> {
    if queue == [] then [] else IdsOf(queue[..|queue| - 1]) + [queue[|queue| - 1].id]
  }

  ghost predicate FewRetries(queue: seq<QueuedOp>) {
    forall i | 0 <= i < |queue| :: queue[i].retryCount < MAX_ATTEMPTS
  }

  lemma {:induction false} FatesPrefix(queue: seq<QueuedOp>, feeGated: bool, w: Sends, i: nat)
    requires i < |queue|
    ensures Fates(queue[..i + 1], feeGated, w)
         == Fates(queue[..i], feeGated, w) + [FateOf(queue[i], feeGated, w.ok(i), w.clock(i))]
  {
    hide FateOf;
    assert queue[..i + 1][..i] == queue[..i];
  }

  lemma {:induction false} OneMoreFate(queue: seq<QueuedOp>, op: QueuedOp, fs: seq<Fate>, f: Fate)
    requires |queue| == |fs|
    ensures KeptOps(fs + [f]) == KeptOps(fs) + if f.Kept? then [f.op] else []
    ensures IdsWith(queue + [op], fs + [f], Sent) == IdsWith(queue, fs, Sent) + if f.Sent? then [op.id] else []
    ensures IdsWith(queue + [op], fs + [f], Failed) == IdsWith(queue, fs, Failed) + if f.Failed? then [op.id] else []
  {
    assert (fs + [f])[..|fs|] == fs && (queue + [op])[..|queue|] == queue;
  }

  lemma NoFates()
    ensures KeptOps([]) == [] && IdsWith([], [], Sent) == [] && IdsWith([], [], Failed) == []
  {
  }

  /** A kept operation is its own old self with one more attempt, still below five. */
  ghost predicate RetriedOnce(op: QueuedOp, kept: QueuedOp) {
    && kept.id == op.id && kept.operation == op.operation
    && kept.retryCount == op.retryCount + 1 < MAX_ATTEMPTS
  }

  ghost predicate FatesFit(queue: seq<QueuedOp>, fs: seq<Fate>) {
    |queue| == |fs| && forall i | 0 <= i < |fs| && fs[i].Kept? :: RetriedOnce(queue[i], fs[i].op)
  }

  lemma {:induction false} EveryOpAccounted(queue: seq<QueuedOp>, fs: seq<Fate>)
    requires FatesFit(queue, fs)
    ensures multiset(IdsOf(queue))
         == multiset(IdsWith(queue, fs, Sent)) + multiset(IdsWith(queue, fs, Failed)) + multiset(IdsOf(KeptOps(fs)))
  {
    hide KeptOps, IdsWith, IdsOf;
    NoFates();
    NoIds();
    if fs != [] {
      var n := |fs| - 1;
      EveryOpAccounted(queue[..n], fs[..n]);
      assert queue == queue[..n] + [queue[n]] && fs == fs[..n] + [fs[n]];
      OneMoreFate(queue[..n], queue[n], fs[..n], fs[n]);
      IdsOfAppend(queue[..n], queue[n]);
      if fs[n].Kept? {
        IdsOfAppend(KeptOps(fs[..n]), fs[n].op);
      } else {
        assert KeptOps(fs) == KeptOps(fs[..n]);
      }
    }
  }

  lemma NoIds()
    ensures IdsOf([]) == []
  {
  }

  lemma {:induction false} IdsOfAppend(queue: seq<QueuedOp>, op: QueuedOp)
    ensures IdsOf(queue + [op]) == IdsOf(queue) + [op.id]
  {
    assert (queue + [op])[..|queue|] == queue;
  }

  /** Every queued operation ends exactly once: sent, reported failed, or kept. */
  lemma {:induction false} NothingLost(queue: seq<QueuedOp>, feeGated: bool, w: Sends, fs: seq<Fate>)
    requires fs == Fates(queue, feeGated, w)
    ensures multiset(IdsOf(queue))
         == multiset(IdsWith(queue, fs, Sent)) + multiset(IdsWith(queue, fs, Failed)) + multiset(IdsOf(KeptOps(fs)))
  {
    assert FatesFit(queue, fs);
    hide *;
    EveryOpAccounted(queue, fs);
  }

  lemma {:induction false} KeptAreOld(queue: seq<QueuedOp>, fs: seq<Fate>)
    requires FatesFit(queue, fs)
    ensures forall k | k in KeptOps(fs) :: exists i | 0 <= i < |queue| :: RetriedOnce(queue[i], k)
  {
    hide RetriedOnce;
    if fs != [] {
      var n := |fs| - 1;
      KeptAreOld(queue[..n], fs[..n]);
      assert forall i | 0 <= i < n :: queue[..n][i] == queue[i];
    }
  }

  lemma {:induction false} KeptHaveOneMoreRetry(queue: seq<QueuedOp>, feeGated: bool, w: Sends)
    ensures FewRetries(KeptOps(Fates(queue, feeGated, w)))
    ensures forall k | k in KeptOps(Fates(queue, feeGated, w)) :: exists i | 0 <= i < |queue| :: RetriedOnce(queue[i], k)
  {
    hide KeptOps;
    var fs := Fates(queue, feeGated, w);
    KeptAreOld(queue, fs);
    forall j | 0 <= j < |KeptOps(fs)|
      ensures KeptOps(fs)[j].retryCount < MAX_ATTEMPTS
    {
      assert KeptOps(fs)[j] in KeptOps(fs);
    }
  }

  // ---------- the client ----------

  class LightClient {
    const maxOfflineQueue: nat
    const feeGated: bool
    var queue: seq<QueuedOp>
    var state: ConnectionState

    constructor (maxOfflineQueue: nat, feeGated: bool)
      ensures this.maxOfflineQueue == maxOfflineQueue && this.feeGated == feeGated
      ensures queue == [] && state == Disconnected
    {
      this.maxOfflineQueue, this.feeGated := maxOfflineQueue, feeGated;
      queue, state := [], Disconnected;
    }

    /** `queue_operation`. */
    method QueueOperation(operation: Operation, freshId: nat) returns (r: Result<nat, string>)
      modifies this`queue
      ensures queue == Enqueue(old(queue), QueuedOp(freshId, operation, 0, None), maxOfflineQueue)
      ensures r.Ok? <==> |old(queue)| < maxOfflineQueue
      ensures r.Ok? ==> r.value == freshId && queue == old(queue) + [QueuedOp(freshId, operation, 0, None)]
      ensures r.Err? ==> queue == old(queue)
      ensures old(FewRetries(queue)) ==> FewRetries(queue)
    {
      if |queue| >= maxOfflineQueue {
        return Err("Offline queue full");
      }
      queue := queue + [QueuedOp(freshId, operation, 0, None)];
      r := Ok(freshId);
    }

    /** `send_channel_message` and `send_direct_message`: not ready means queued, which counts as success. */
    method Send(operation: Operation, ok: bool, freshId: nat) returns (success: bool)
      modifies this`queue
      ensures state == Ready ==> queue == old(queue) && success == (ok && (operation.DirectMessage? ==> feeGated))
      ensures state != Ready ==>
        && queue == Enqueue(old(queue), QueuedOp(freshId, operation, 0, None), maxOfflineQueue)
        && success == (|old(queue)| < maxOfflineQueue)
        && queue == old(queue) + if success then [QueuedOp(freshId, operation, 0, None)] else []
    {
      if state != Ready {
        var r := QueueOperation(operation, freshId);
        return r.Ok?;
      }
      success := ok && (operation.DirectMessage? ==> feeGated);
    }

    /**
     One pass of the drain loop, for an operation that is already off the queue.  While not ready a
     sendable operation goes to the back of the queue with a new id, or fails if the queue is full.
     */
    method Attempt(operation: QueuedOp, ok: bool, now: int, freshId: nat) returns (fate: Fate)
      modifies this`queue
      ensures var sendable := operation.operation.ChannelMessage? || feeGated;
              var sent := if state == Ready then ok else |old(queue)| < maxOfflineQueue;
              && fate == FateOf(operation, feeGated, sent, now)
              && Disposed(operation, sendable, sent, now, fate)
              && queue == old(queue) + (if state != Ready && sendable && sent then [QueuedOp(freshId, operation.operation, 0, None)] else [])
      ensures Iterate(Config(maxOfflineQueue, feeGated), Draining([operation] + old(queue), []), Turn(state, ok, now, freshId, [], []))
           == Draining(queue, if fate.Kept? then [fate.op] else [])
    {
      assert ([operation] + queue)[1..] == queue;
      var op := operation;
      if op.operation.DirectMessage? && !feeGated {
        op := op.(retryCount := 4);
      }
      var success := false;
      if op.operation.ChannelMessage? || feeGated {
        success := Send(op.operation, ok, freshId);
      }
      if success {
        return Sent;
      }
      op := op.(retryCount := op.retryCount + 1, lastAttempt := Some(now));
      fate := if op.retryCount < MAX_ATTEMPTS then Kept(op) else Failed;
    }

    /** A pass that leaves the queue alone: ready, nothing to send, or no room to queue it again. */
    method TakeTurn(op: QueuedOp, i: nat, w: Sends, freshId: nat) returns (fate: Fate)
      requires state == Ready || |queue| >= maxOfflineQueue || (op.operation.DirectMessage? && !feeGated)
      modifies this`queue
      ensures queue == old(queue)
      ensures var v := EffectiveSends(state, w); fate == FateOf(op, feeGated, v.ok(i), v.clock(i))
    {
      fate := Attempt(op, w.ok(i), w.clock(i), freshId);
    }

    /**
     `drain_offline_queue` with nobody else enqueueing, wherever it ends: when ready, or when
     nothing sendable is among the last operations that fit the limit; while not ready every send
     fails there, the queue being full.
     */
    method DrainOfflineQueue(w: Sends, freshIds: nat -> nat) returns (sent: seq<nat>, failed: seq<nat>)
      requires state == Ready || !AnySendable(Config(maxOfflineQueue, feeGated), LastOnes(Config(maxOfflineQueue, feeGated), queue))
      modifies this`queue
      ensures var fs := Fates(old(queue), feeGated, EffectiveSends(state, w));
              && (forall i | 0 <= i < |old(queue)| ::
                    Disposed(old(queue)[i], old(queue)[i].operation.ChannelMessage? || feeGated, state == Ready && w.ok(i), w.clock(i), fs[i]))
              && queue == KeptOps(fs)
              && sent == IdsWith(old(queue), fs, Sent)
              && failed == IdsWith(old(queue), fs, Failed)
      ensures FewRetries(queue)
    {
      hide Fates, KeptOps, IdsWith, FewRetries, FateOf, AnySendable, LastOnes, Progress, EffectiveSends;
      ghost var all, v := queue, EffectiveSends(state, w);
      AllDisposed(all, feeGated, state, w);
      hide Disposed;
      KeptHaveOneMoreRetry(all, feeGated, v);
      NoProgress(feeGated, v);
      sent, failed := [], [];
      var failures: seq<QueuedOp> := [];
      var i := 0;
      while queue != []
        invariant i + |queue| == |all| && queue == all[i..]
        invariant Progress(all[..i], feeGated, v, failures, sent, failed)
        decreases |queue|
      {
        var op := queue[0];
        queue := queue[1..];
        if state != Ready {
          SendsFindNoRoom(Config(maxOfflineQueue, feeGated), all, i);
        }
        var fate := TakeTurn(op, i, w, freshIds(i));
        OneMoreDone(all, i, feeGated, v, failures, sent, failed);
        match fate {
          case Sent => sent := sent + [op.id];
          case Failed => failed := failed + [op.id];
          case Kept(retried) => failures := failures + [retried];
        }
        i := i + 1;
      }
      assert all[..i] == all;
      ProgressIs(all, feeGated, v, failures, sent, failed);
      queue := queue + failures;
    }
  }

  /** Where the drain stands after the given operations. */
  ghost predicate Progress(done: seq<QueuedOp>, feeGated: bool, v: Sends, failures: seq<QueuedOp>, sent: seq<nat>, failed: seq<nat>) {
    var fs := Fates(done, feeGated, v);
    failures == KeptOps(fs) && sent == IdsWith(done, fs, Sent) && failed == IdsWith(done, fs, Failed)
  }

  lemma ProgressIs(done: seq<QueuedOp>, feeGated: bool, v: Sends, failures: seq<QueuedOp>, sent: seq<nat>, failed: seq<nat>)
    requires Progress(done, feeGated, v, failures, sent, failed)
    ensures var fs := Fates(done, feeGated, v);
            failures == KeptOps(fs) && sent == IdsWith(done, fs, Sent) && failed == IdsWith(done, fs, Failed)
  {
    hide Fates, KeptOps, IdsWith;
  }

  lemma NoProgress(feeGated: bool, v: Sends)
    ensures Progress([], feeGated, v, [], [], [])
  {
    NoFates();
    NoQueueNoFates(feeGated, v);
  }

  lemma {:induction false} OneMoreDone(all: seq<QueuedOp>, i: nat, feeGated: bool, v: Sends,
                                       failures: seq<QueuedOp>, sent: seq<nat>, failed: seq<nat>)
    requires i < |all| && Progress(all[..i], feeGated, v, failures, sent, failed)
    ensures match FateOf(all[i], feeGated, v.ok(i), v.clock(i))
            case Sent => Progress(all[..i + 1], feeGated, v, failures, sent + [all[i].id], failed)
            case Failed => Progress(all[..i + 1], feeGated, v, failures, sent, failed + [all[i].id])
            case Kept(op) => Progress(all[..i + 1], feeGated, v, failures + [op], sent, failed)
  {
    hide Fates, KeptOps, IdsWith, FateOf;
    FatesPrefix(all, feeGated, v, i);
    OneMoreFate(all[..i], all[i], Fates(all[..i], feeGated, v), FateOf(all[i], feeGated, v.ok(i), v.clock(i)));
    assert all[..i] + [all[i]] == all[..i + 1];
  }

  /** While not ready, a send that does not go through counts as a failure. */
  function EffectiveSends(state: ConnectionState, w: Sends): Sends {
    if state == Ready then w else Sends(_ => false, w.clock)
  }

  lemma SendsFindNoRoom(c: Config, all: seq<QueuedOp>, i: nat)
    requires i < |all| && !AnySendable(c, LastOnes(c, all))
    ensures Sendable(c, all[i].operation) ==> |all[i + 1..]| >= c.max
  {
    if i >= Excess(c, all) {
      AmongLastOnes(c, all, i);
    }
  }

  lemma AmongLastOnes(c: Config, queue: seq<QueuedOp>, i: nat)
    requires Excess(c, queue) <= i < |queue|
    ensures Sendable(c, queue[i].operation) ==> AnySendable(c, LastOnes(c, queue))
  {
    assert LastOnes(c, queue)[i - Excess(c, queue)] == queue[i];
  }

  function Enqueue(queue: seq<QueuedOp>, op: QueuedOp, max: nat): seq<QueuedOp> {
    if |queue| >= max then queue else queue + [op]
  }

  lemma NoQueueNoFates(feeGated: bool, w: Sends)
    ensures Fates([], feeGated, w) == []
  {
  }

  // ---------- one iteration in any state, with others enqueueing ----------

  datatype Config = Config(max: nat, feeGated: bool)

  /** The shared queue and the drain's private list of failures. */
  datatype Draining = Draining(queue: seq<QueuedOp>, failures: seq<QueuedOp>)

  /** What the world does during one iteration: the send's outcome, and what others enqueue around it. */
  datatype Turn = Turn(conn: ConnectionState, ok: bool, now: int, freshId: nat, before: seq<QueuedOp>, after: seq<QueuedOp>)

  function EnqueueAll(queue: seq<QueuedOp>, ops: seq<QueuedOp>, max: nat): seq<QueuedOp> {
    if ops == [] then queue
    else Enqueue(EnqueueAll(queue, ops[..|ops| - 1], max), ops[|ops| - 1], max)
  }

  predicate Sendable(c: Config, op: Operation) {
    op.ChannelMessage? || c.feeGated
  }

  /** One pass of the drain loop; a drain on an empty queue is over. */
  function Iterate(c: Config, d: Draining, t: Turn): Draining {
    if d.queue == [] then d
    else
      var op, rest := d.queue[0], d.queue[1..];
      if !Sendable(c, op.operation) then Draining(rest, d.failures)
      else
        var found := EnqueueAll(rest, t.before, c.max);
        var ok := if t.conn == Ready then t.ok else |found| < c.max;
        var left := if t.conn == Ready then found else Enqueue(found, QueuedOp(t.freshId, op.operation, 0, None), c.max);
        var failures := if !ok && op.retryCount + 1 < MAX_ATTEMPTS
                        then d.failures + [op.(retryCount := op.retryCount + 1, lastAttempt := Some(t.now))]
                        else d.failures;
        Draining(EnqueueAll(left, t.after, c.max), failures)
  }

  function IterateAll(c: Config, d: Draining, turns: seq<Turn>): Draining {
    if turns == [] then d else Iterate(c, IterateAll(c, d, turns[..|turns| - 1]), turns[|turns| - 1])
  }

  lemma {:induction false} EnqueueAllKeepsRetries(queue: seq<QueuedOp>, ops: seq<QueuedOp>, max: nat)
    requires FewRetries(queue) && FewRetries(ops)
    ensures FewRetries(EnqueueAll(queue, ops, max))
  {
    if ops != [] {
      EnqueueAllKeepsRetries(queue, ops[..|ops| - 1], max);
    }
  }

  lemma {:induction false} IterateKeepsRetries(c: Config, d: Draining, t: Turn)
    requires FewRetries(d.queue) && FewRetries(d.failures) && FewRetries(t.before) && FewRetries(t.after)
    ensures FewRetries(Iterate(c, d, t).queue) && FewRetries(Iterate(c, d, t).failures)
  {
    hide EnqueueAll;
    if d.queue != [] && Sendable(c, d.queue[0].operation) {
      var found := EnqueueAll(d.queue[1..], t.before, c.max);
      EnqueueAllKeepsRetries(d.queue[1..], t.before, c.max);
      var left := if t.conn == Ready then found else Enqueue(found, QueuedOp(t.freshId, d.queue[0].operation, 0, None), c.max);
      EnqueueAllKeepsRetries(left, t.after, c.max);
    }
  }

  /** In every state, however the queue is used meanwhile, no queued operation has had five attempts. */
  lemma {:induction false} RetriesBounded(c: Config, d: Draining, turns: seq<Turn>)
    requires FewRetries(d.queue) && FewRetries(d.failures)
    requires forall i | 0 <= i < |turns| :: FewRetries(turns[i].before) && FewRetries(turns[i].after)
    ensures var e := IterateAll(c, d, turns); FewRetries(e.queue + e.failures)
  {
    RetriesBoundedParts(c, d, turns);
  }

  lemma {:induction false} RetriesBoundedParts(c: Config, d: Draining, turns: seq<Turn>)
    requires FewRetries(d.queue) && FewRetries(d.failures)
    requires forall i | 0 <= i < |turns| :: FewRetries(turns[i].before) && FewRetries(turns[i].after)
    ensures var e := IterateAll(c, d, turns); FewRetries(e.queue) && FewRetries(e.failures)
  {
    hide FewRetries, Iterate;
    if turns != [] {
      var n := |turns| - 1;
      RetriesBoundedParts(c, d, turns[..n]);
      IterateKeepsRetries(c, IterateAll(c, d, turns[..n]), turns[n]);
    }
  }

  // ---------- draining before the client is ready ----------

  /** How many queued operations the drain would try to send. */
  ghost function SendableCount(c: Config, queue: seq<QueuedOp>): nat {
    if queue == [] then 0
    else SendableCount(c, queue[..|queue| - 1]) + if Sendable(c, queue[|queue| - 1].operation) then 1 else 0
  }

  lemma {:induction false} SendableCountConcat(c: Config, a: seq<QueuedOp>, b: seq<QueuedOp>)
    ensures SendableCount(c, a + b) == SendableCount(c, a) + SendableCount(c, b)
  {
    if b == [] {
      assert a + b == a;
    } else {
      var n := |b| - 1;
      assert (a + b)[..|a| + n] == a + b[..n];
      SendableCountConcat(c, a, b[..n]);
    }
  }

  /** An undisturbed iteration while the client is not ready. */
  predicate QuietNotReady(t: Turn) {
    t.conn != Ready && t.before == [] && t.after == []
  }

  /**
   Such an iteration on a sendable operation only moves it to the back, so that the queue does not
   shrink, exactly when the queue is within its limit; above it the operation leaves the queue.
   */
  lemma {:induction false} NotReadyOnlyRotates(c: Config, d: Draining, t: Turn)
    requires QuietNotReady(t) && d.queue != [] && Sendable(c, d.queue[0].operation)
    ensures var op := d.queue[0];
            |d.queue| <= c.max ==>
              Iterate(c, d, t) == Draining(d.queue[1..] + [QueuedOp(t.freshId, op.operation, 0, None)], d.failures)
    ensures |d.queue| > c.max ==> Iterate(c, d, t).queue == d.queue[1..]
    ensures |Iterate(c, d, t).queue| == |d.queue| <==> |d.queue| <= c.max
  {
  }

  lemma {:induction false} NotReadyKeepsSendable(c: Config, d: Draining, t: Turn)
    requires QuietNotReady(t) && |d.queue| <= c.max
    ensures SendableCount(c, Iterate(c, d, t).queue) == SendableCount(c, d.queue)
    ensures |Iterate(c, d, t).queue| <= |d.queue|
    ensures d.queue != [] && !Sendable(c, d.queue[0].operation) ==> |Iterate(c, d, t).queue| == |d.queue| - 1
  {
    if d.queue != [] {
      var op := d.queue[0];
      assert d.queue == [op] + d.queue[1..];
      SendableCountConcat(c, [op], d.queue[1..]);
      assert SendableCount(c, [op]) == if Sendable(c, op.operation) then 1 else 0 by { assert [op][..0] == []; }
      if Sendable(c, op.operation) {
        NotReadyOnlyRotates(c, d, t);
        var back := QueuedOp(t.freshId, op.operation, 0, None);
        SendableCountConcat(c, d.queue[1..], [back]);
        assert SendableCount(c, [back]) == 1 by { assert [back][..0] == []; }
      }
    }
  }

  lemma {:induction false} NotReadyInvariant(c: Config, d: Draining, turns: seq<Turn>)
    requires |d.queue| <= c.max && forall i | 0 <= i < |turns| :: QuietNotReady(turns[i])
    ensures SendableCount(c, IterateAll(c, d, turns).queue) == SendableCount(c, d.queue)
    ensures |IterateAll(c, d, turns).queue| <= |d.queue|
  {
    hide Iterate, SendableCount;
    if turns != [] {
      var n := |turns| - 1;
      NotReadyInvariant(c, d, turns[..n]);
      NotReadyKeepsSendable(c, IterateAll(c, d, turns[..n]), turns[n]);
    }
  }

  lemma {:induction false} SomeSendable(c: Config, queue: seq<QueuedOp>)
    ensures SendableCount(c, queue) > 0 <==> exists i | 0 <= i < |queue| :: Sendable(c, queue[i].operation)
  {
    if queue != [] {
      var n := |queue| - 1;
      SomeSendable(c, queue[..n]);
      assert forall i | 0 <= i < n :: queue[..n][i] == queue[i];
    }
  }

  lemma {:induction false} UnsendableShrink(c: Config, d: Draining, turns: seq<Turn>)
    requires |d.queue| <= c.max && SendableCount(c, d.queue) == 0
    requires |turns| <= |d.queue| && forall i | 0 <= i < |turns| :: QuietNotReady(turns[i])
    ensures |IterateAll(c, d, turns).queue| == |d.queue| - |turns|
  {
    hide Iterate, SendableCount;
    if turns != [] {
      var n := |turns| - 1;
      UnsendableShrink(c, d, turns[..n]);
      NotReadyInvariant(c, d, turns[..n]);
      var e := IterateAll(c, d, turns[..n]);
      SomeSendable(c, e.queue);
      assert !Sendable(c, e.queue[0].operation);
      NotReadyKeepsSendable(c, e, turns[n]);
    }
  }

  lemma {:induction false} WithinLimitEndsIff(c: Config, d: Draining, turns: seq<Turn>)
    requires |d.queue| <= c.max && |turns| >= |d.queue|
    requires forall i | 0 <= i < |turns| :: QuietNotReady(turns[i])
    ensures IterateAll(c, d, turns).queue == [] <==> !AnySendable(c, d.queue)
  {
    hide Iterate, SendableCount, IterateAll;
    SomeSendable(c, d.queue);
    NotReadyInvariant(c, d, turns);
    SomeSendable(c, IterateAll(c, d, turns).queue);
    if SendableCount(c, d.queue) == 0 {
      UnsendableShrink(c, d, turns[..|d.queue|]);
      OnceEmptyStaysEmpty(c, d, turns, |d.queue|);
    }
  }

  ghost predicate AnySendable(c: Config, queue: seq<QueuedOp>) {
    exists i | 0 <= i < |queue| :: Sendable(c, queue[i].operation)
  }

  /** How many operations the queue holds above its limit. */
  function Excess(c: Config, queue: seq<QueuedOp>): nat {
    if |queue| > c.max then |queue| - c.max else 0
  }

  /** The last operations, as many as the limit allows. */
  function LastOnes(c: Config, queue: seq<QueuedOp>): seq<QueuedOp> {
    queue[Excess(c, queue)..]
  }

  /** Above the limit every iteration while not ready takes one operation off, for nothing can be put back. */
  lemma {:induction false} ExcessIsDropped(c: Config, d: Draining, turns: seq<Turn>)
    requires |turns| <= Excess(c, d.queue) && forall i | 0 <= i < |turns| :: QuietNotReady(turns[i])
    ensures IterateAll(c, d, turns).queue == d.queue[|turns|..]
  {
    hide Iterate;
    if turns != [] {
      var n := |turns| - 1;
      ExcessIsDropped(c, d, turns[..n]);
      HeadIsDropped(c, IterateAll(c, d, turns[..n]), turns[n]);
    }
  }

  lemma HeadIsDropped(c: Config, d: Draining, t: Turn)
    requires QuietNotReady(t) && d.queue != [] && |d.queue| > c.max
    ensures Iterate(c, d, t).queue == d.queue[1..]
  {
  }

  lemma {:induction false} IterateAllAppend(c: Config, d: Draining, a: seq<Turn>, b: seq<Turn>)
    ensures IterateAll(c, d, a + b) == IterateAll(c, IterateAll(c, d, a), b)
    decreases |b|
  {
    hide Iterate;
    if b == [] {
      assert a + b == a;
    } else {
      var n := |b| - 1;
      assert (a + b)[..|a| + n] == a + b[..n];
      IterateAllAppend(c, d, a, b[..n]);
    }
  }

  /**
   `connect` drains while the state is still `Connected`.  With nobody interfering that drain
   finishes if and only if nothing sendable is among the last operations that fit the limit;
   what stands before them in an overfull queue leaves it in any case.
   */
  lemma {:induction false} NotReadyDrainEndsIff(c: Config, d: Draining, turns: seq<Turn>)
    requires |turns| >= |d.queue| && forall i | 0 <= i < |turns| :: QuietNotReady(turns[i])
    ensures IterateAll(c, d, turns).queue == [] <==> !AnySendable(c, LastOnes(c, d.queue))
  {
    hide IterateAll, AnySendable;
    var k := Excess(c, d.queue);
    ExcessIsDropped(c, d, turns[..k]);
    IterateAllAppend(c, d, turns[..k], turns[k..]);
    assert turns[..k] + turns[k..] == turns;
    WithinLimitEndsIff(c, IterateAll(c, d, turns[..k]), turns[k..]);
  }

  lemma EmptyStaysEmpty(c: Config, d: Draining, t: Turn)
    ensures d.queue == [] ==> Iterate(c, d, t) == d
  {
  }

  lemma {:induction false} OnceEmptyStaysEmpty(c: Config, d: Draining, turns: seq<Turn>, k: nat)
    requires k <= |turns| && IterateAll(c, d, turns[..k]).queue == []
    ensures IterateAll(c, d, turns).queue == []
    decreases |turns|
  {
    hide Iterate;
    if k == |turns| {
      assert turns[..k] == turns;
    } else {
      var n := |turns| - 1;
      assert turns[..n][..k] == turns[..k];
      OnceEmptyStaysEmpty(c, d, turns[..n], k);
      EmptyStaysEmpty(c, IterateAll(c, d, turns[..n]), turns[n]);
    }
  }

  // ---------- how long the queue gets ----------

  /** What others add during one iteration. */
  function AcceptedIn(c: Config, d: Draining, t: Turn): int {
    if d.queue == [] || !Sendable(c, d.queue[0].operation) then 0
    else
      var op, rest := d.queue[0], d.queue[1..];
      var found := EnqueueAll(rest, t.before, c.max);
      var left := if t.conn == Ready then found else Enqueue(found, QueuedOp(t.freshId, op.operation, 0, None), c.max);
      |found| - |rest| + |EnqueueAll(left, t.after, c.max)| - |left|
  }

  /** One if the iteration is the operation's last: sent while ready, or failed for good. */
  function GoneIn(c: Config, d: Draining, t: Turn): nat {
    if d.queue == [] then 0
    else if !Sendable(c, d.queue[0].operation) then 1
    else
      var ok := if t.conn == Ready then t.ok else |EnqueueAll(d.queue[1..], t.before, c.max)| < c.max;
      if ok then (if t.conn == Ready then 1 else 0)
      else if d.queue[0].retryCount + 1 < MAX_ATTEMPTS then 0 else 1
  }

  function Accepted(c: Config, d: Draining, turns: seq<Turn>): int {
    if turns == [] then 0
    else
      var n := |turns| - 1;
      Accepted(c, d, turns[..n]) + AcceptedIn(c, IterateAll(c, d, turns[..n]), turns[n])
  }

  function Gone(c: Config, d: Draining, turns: seq<Turn>): nat {
    if turns == [] then 0
    else
      var n := |turns| - 1;
      Gone(c, d, turns[..n]) + GoneIn(c, IterateAll(c, d, turns[..n]), turns[n])
  }

  /** Nothing is lost or doubled in any state, whoever enqueues meanwhile. */
  lemma {:induction false} DrainConserves(c: Config, d: Draining, turns: seq<Turn>)
    ensures var e := IterateAll(c, d, turns);
            |e.queue| + |e.failures| + Gone(c, d, turns) == |d.queue| + |d.failures| + Accepted(c, d, turns)
  {
    if turns != [] {
      var n := |turns| - 1;
      DrainConserves(c, d, turns[..n]);
      IterationConserves(c, IterateAll(c, d, turns[..n]), turns[n]);
      hide Iterate, AcceptedIn, GoneIn;
    }
  }

  lemma {:induction false} IterationConserves(c: Config, d: Draining, t: Turn)
    ensures var e := Iterate(c, d, t);
            |e.queue| + |e.failures| + GoneIn(c, d, t) == |d.queue| + |d.failures| + AcceptedIn(c, d, t)
  {
    hide EnqueueAll;
  }

  /** The queue once the drain is over: what is left, followed by the failures, with no regard to the limit. */
  function Finished(d: Draining): seq<QueuedOp> {
    d.queue + d.failures
  }

  /** Alone, a drain never breaks the limit. */
  lemma {:induction false} QuietDrainKeepsLimit(c: Config, queue: seq<QueuedOp>, turns: seq<Turn>)
    requires |queue| <= c.max && forall i | 0 <= i < |turns| :: turns[i].before == [] && turns[i].after == []
    ensures |Finished(IterateAll(c, Draining(queue, []), turns))| <= c.max
  {
    hide IterateAll, Accepted, Gone;
    NothingAccepted(c, Draining(queue, []), turns);
    DrainConserves(c, Draining(queue, []), turns);
  }

  lemma {:induction false} NothingAccepted(c: Config, d: Draining, turns: seq<Turn>)
    requires forall i | 0 <= i < |turns| :: turns[i].before == [] && turns[i].after == []
    ensures Accepted(c, d, turns) == 0
  {
    hide IterateAll;
    if turns != [] {
      NothingAccepted(c, d, turns[..|turns| - 1]);
    }
  }

  // ---------- when a drain can leave the queue above its limit ----------

  /** The operation goes back to the queue if its send fails. */
  predicate Retryable(c: Config, op: QueuedOp) {
    Sendable(c, op.operation) && op.retryCount + 1 < MAX_ATTEMPTS
  }

  function Retryables(c: Config, queue: seq<QueuedOp>): nat {
    if queue == [] then 0 else (if Retryable(c, queue[0]) then 1 else 0) + Retryables(c, queue[1..])
  }

  /** If nothing sendable is among the last ones, no enqueue is ever accepted: the lock is only given up while the queue is full. */
  lemma {:induction false} FullQueueAcceptsNothing(c: Config, queue: seq<QueuedOp>, turns: seq<Turn>)
    requires !AnySendable(c, LastOnes(c, queue))
    ensures var d := IterateAll(c, Draining(queue, []), turns);
            && |d.queue| <= |queue| && d.queue == queue[|queue| - |d.queue|..]
            && |d.failures| + Retryables(c, d.queue) <= Retryables(c, queue)
  {
    hide Iterate, Retryable, AnySendable;
    if turns != [] {
      var n := |turns| - 1;
      FullQueueAcceptsNothing(c, queue, turns[..n]);
      FullQueueStep(c, queue, IterateAll(c, Draining(queue, []), turns[..n]), turns[n]);
    }
  }

  lemma {:induction false} FullQueueStep(c: Config, queue: seq<QueuedOp>, d: Draining, t: Turn)
    requires !AnySendable(c, LastOnes(c, queue)) && |d.queue| <= |queue| && d.queue == queue[|queue| - |d.queue|..]
    ensures d.queue == [] ==> Iterate(c, d, t) == d
    ensures d.queue != [] ==>
      var e := Iterate(c, d, t);
      e.queue == d.queue[1..] && |e.failures| + Retryables(c, e.queue) <= |d.failures| + Retryables(c, d.queue)
  {
    hide AnySendable;
    if 0 < |d.queue| <= c.max {
      AmongLastOnes(c, queue, |queue| - |d.queue|);
    }
    if d.queue != [] && Sendable(c, d.queue[0].operation) {
      FullStays(d.queue[1..], t.before, c.max);
      FullStays(d.queue[1..], t.after, c.max);
    }
  }

  lemma {:induction false} FullStays(queue: seq<QueuedOp>, ops: seq<QueuedOp>, max: nat)
    requires |queue| >= max
    ensures EnqueueAll(queue, ops, max) == queue
  {
    if ops != [] {
      FullStays(queue, ops[..|ops| - 1], max);
    }
  }

  /** A turn while ready, with what others enqueue at its end. */
  function ReadyTurn(ok: bool, after: seq<QueuedOp>): Turn {
    Turn(Ready, ok, 0, 0, [], after)
  }

  function Repeated(t: Turn, n: nat): (ts: seq<Turn>)
    ensures |ts| == n && forall i | 0 <= i < n :: ts[i] == t
  {
    if n == 0 then [] else Repeated(t, n - 1) + [t]
  }

  lemma {:induction false} OneTurn(c: Config, d: Draining, t: Turn)
    ensures IterateAll(c, d, [t]) == Iterate(c, d, t)
  {
    assert [t][..0] == [];
  }

  lemma {:induction false} SendingEmpties(c: Config, d: Draining, n: nat)
    requires n <= |d.queue|
    ensures IterateAll(c, d, Repeated(ReadyTurn(true, []), n)) == Draining(d.queue[n..], d.failures)
  {
    hide Iterate;
    if n > 0 {
      SendingEmpties(c, d, n - 1);
      var ts := Repeated(ReadyTurn(true, []), n);
      assert ts[..n - 1] == Repeated(ReadyTurn(true, []), n - 1);
      SentIsGone(c, IterateAll(c, d, ts[..n - 1]));
    }
  }

  lemma SentIsGone(c: Config, d: Draining)
    requires d.queue != []
    ensures Iterate(c, d, ReadyTurn(true, [])) == Draining(d.queue[1..], d.failures)
  {
  }

  lemma {:induction false} FailingKeeps(c: Config, d: Draining, n: nat)
    requires n <= |d.queue|
    ensures var e := IterateAll(c, d, Repeated(ReadyTurn(false, []), n));
            e.queue == d.queue[n..] && |e.failures| + Retryables(c, e.queue) == |d.failures| + Retryables(c, d.queue)
  {
    hide Iterate, Retryables;
    if n > 0 {
      FailingKeeps(c, d, n - 1);
      var ts := Repeated(ReadyTurn(false, []), n);
      assert ts[..n - 1] == Repeated(ReadyTurn(false, []), n - 1);
      FailureKeeps(c, IterateAll(c, d, ts[..n - 1]));
    }
  }

  lemma FailureKeeps(c: Config, d: Draining)
    requires d.queue != []
    ensures var e := Iterate(c, d, ReadyTurn(false, []));
            e.queue == d.queue[1..] && |e.failures| + Retryables(c, e.queue) == |d.failures| + Retryables(c, d.queue)
  {
  }

  /** A channel message that another caller enqueues. */
  const EXTRA: QueuedOp := QueuedOp(0, ChannelMessage("", []), 0, None)

  /** One operation in the queue, failing again and again while another takes its place. */
  lemma {:induction false} FailuresPileUp(c: Config, failures: seq<QueuedOp>, n: nat)
    requires c.max >= 1
    ensures var e := IterateAll(c, Draining([EXTRA], failures), Repeated(ReadyTurn(false, [EXTRA]), n));
            e.queue == [EXTRA] && |e.failures| == |failures| + n
  {
    if n > 0 {
      FailuresPileUp(c, failures, n - 1);
      var ts := Repeated(ReadyTurn(false, [EXTRA]), n);
      assert ts[..n - 1] == Repeated(ReadyTurn(false, [EXTRA]), n - 1);
      ReplacedByAnother(c, IterateAll(c, Draining([EXTRA], failures), ts[..n - 1]));
    }
  }

  lemma ReplacedByAnother(c: Config, d: Draining)
    requires c.max >= 1 && d.queue == [EXTRA]
    ensures var e := Iterate(c, d, ReadyTurn(false, [EXTRA])); e.queue == [EXTRA] && |e.failures| == |d.failures| + 1
  {
    assert [EXTRA][..0] == [] && [EXTRA][1..] == [];
    assert EnqueueAll([], [EXTRA], c.max) == [EXTRA];
  }

  /** A sendable operation among the last ones gives up the lock while there is room, which is enough. */
  lemma {:induction false} SendableOpensTheDoor(c: Config, queue: seq<QueuedOp>, p: nat) returns (turns: seq<Turn>)
    requires Excess(c, queue) <= p < |queue| && Sendable(c, queue[p].operation)
    ensures var d := IterateAll(c, Draining(queue, []), turns);
            d.queue == [] && |Finished(d)| > c.max
  {
    hide Iterate, IterateAll, Repeated;
    var start := Draining(queue, []);
    var t1 := Repeated(ReadyTurn(true, []), p);
    SendingEmpties(c, start, p);
    var d1 := Draining(queue[p..], []);

    var open := ReadyTurn(true, [EXTRA]);
    DoorOpens(c, d1);
    OneTurn(c, d1, open);
    var d2 := Draining(d1.queue[1..] + [EXTRA], []);

    var rest := |d2.queue| - 1;
    var t3 := Repeated(ReadyTurn(true, []), rest);
    SendingEmpties(c, d2, rest);
    assert d2.queue[rest..] == [EXTRA];

    var t4 := Repeated(ReadyTurn(false, [EXTRA]), c.max + 1);
    FailuresPileUp(c, [], c.max + 1);
    var d4 := IterateAll(c, Draining([EXTRA], []), t4);

    var t5 := Repeated(ReadyTurn(true, []), 1);
    SendingEmpties(c, d4, 1);

    IterateAllAppend(c, start, t1, [open]);
    IterateAllAppend(c, start, t1 + [open], t3);
    IterateAllAppend(c, start, t1 + [open] + t3, t4);
    IterateAllAppend(c, start, t1 + [open] + t3 + t4, t5);
    turns := t1 + [open] + t3 + t4 + t5;
  }

  lemma DoorOpens(c: Config, d: Draining)
    requires d.queue != [] && Sendable(c, d.queue[0].operation) && |d.queue| <= c.max && d.failures == []
    ensures Iterate(c, d, ReadyTurn(true, [EXTRA])) == Draining(d.queue[1..] + [EXTRA], [])
  {
    assert [EXTRA][..0] == [];
    assert EnqueueAll(d.queue[1..], [EXTRA], c.max) == d.queue[1..] + [EXTRA];
  }

  /** Some course of events makes the drain end with more operations in the queue than its limit. */
  ghost predicate CanOverflow(c: Config, queue: seq<QueuedOp>) {
    exists turns :: OverflowsIn(c, queue, turns)
  }

  ghost predicate OverflowsIn(c: Config, queue: seq<QueuedOp>, turns: seq<Turn>) {
    var d := IterateAll(c, Draining(queue, []), turns);
    d.queue == [] && |Finished(d)| > c.max
  }

  /**
   A drain can leave the queue above its limit if and only if it finds a sendable operation among
   the last ones that fit, or more operations to retry than the limit allows.
   */
  lemma {:induction false} CanOverflowIff(c: Config, queue: seq<QueuedOp>)
    ensures CanOverflow(c, queue) <==> AnySendable(c, LastOnes(c, queue)) || Retryables(c, queue) > c.max
  {
    hide IterateAll, Retryable;
    if AnySendable(c, LastOnes(c, queue)) {
      var i :| 0 <= i < |LastOnes(c, queue)| && Sendable(c, LastOnes(c, queue)[i].operation);
      var turns := SendableOpensTheDoor(c, queue, Excess(c, queue) + i);
      assert OverflowsIn(c, queue, turns);
    } else if Retryables(c, queue) > c.max {
      var turns := Repeated(ReadyTurn(false, []), |queue|);
      FailingKeeps(c, Draining(queue, []), |queue|);
      assert OverflowsIn(c, queue, turns);
    } else {
      forall turns
        ensures !OverflowsIn(c, queue, turns)
      {
        FullQueueAcceptsNothing(c, queue, turns);
      }
    }
  }

  /** For a queue within its limit: if and only if anything sendable is queued. */
  lemma {:induction false} WithinLimitCanOverflowIff(c: Config, queue: seq<QueuedOp>)
    requires |queue| <= c.max
    ensures CanOverflow(c, queue) <==> AnySendable(c, queue)
  {
    hide CanOverflow;
    CanOverflowIff(c, queue);
    RetryablesAtMost(c, queue);
    assert LastOnes(c, queue) == queue;
  }

  lemma {:induction false} RetryablesAtMost(c: Config, queue: seq<QueuedOp>)
    ensures Retryables(c, queue) <= |queue|
  {
    if queue != [] {
      RetryablesAtMost(c, queue[1..]);
    }
  }

  /** A single enqueue during a failing send is enough: a full queue of one ends with two operations. */
  lemma {:induction false} LimitCanBreak(feeGated: bool, op: QueuedOp, extra: QueuedOp, now: int)
    requires op.operation.ChannelMessage? && op.retryCount == 0 && extra.operation.ChannelMessage? && extra.retryCount == 0
    ensures OverflowsIn(Config(1, feeGated), [op], [Turn(Ready, false, now, 0, [], [extra]), Turn(Ready, false, now, 0, [], [])])
  {
    var c := Config(1, feeGated);
    var t, u := Turn(Ready, false, now, 0, [], [extra]), Turn(Ready, false, now, 0, [], []);
    var d := Draining([op], []);
    assert [t, u][..1] == [t] && [t][..0] == [];
    assert [extra][..0] == [];
    assert EnqueueAll([], [extra], 1) == [extra];
    var d1 := Iterate(c, d, t);
    assert d1.queue == [extra] && |d1.failures| == 1;
    assert IterateAll(c, d, [t]) == d1;
    var d2 := Iterate(c, d1, u);
    assert d2.queue == [] && |d2.failures| == 2;
    assert IterateAll(c, d, [t, u]) == d2;
  }
}
