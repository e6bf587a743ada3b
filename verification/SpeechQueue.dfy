/**
 The text-to-speech engine's queue and state (`tts.rs`): a stable priority queue, proved against
 the stable sort of the utterances that are waiting, in submission order.
 */
module SpeechQueue {
  import opened Bytes

  datatype SpeechPriority = Low | Normal | High | Urgent {
    function Rank(): (r: nat)
      ensures r <= 3
      ensures Urgent? <==> r == 3
      ensures High? <==> r == 2
      ensures Normal? <==> r == 1
    {
      match this case Low => 0 case Normal => 1 case High => 2 case Urgent => 3
    }
  }

  datatype Utterance = Utterance(id: nat, text: string, priority: SpeechPriority, interruptible: bool)

  datatype TtsState = Idle | Speaking | Paused

  // ---------- the reference: a stable sort ----------

  /** The utterances of one priority, in submission order. */
  function OfRank(us: seq<Utterance>, rank: nat): seq<Utterance> {
    if us == [] then []
    else OfRank(us[..|us| - 1], rank) + if us[|us| - 1].priority.Rank() == rank then [us[|us| - 1]] else []
  }

  /** Highest priority first, submission order within a priority. */
  function StableSort(us: seq<Utterance>): seq<Utterance> {
    OfRank(us, 3) + OfRank(us, 2) + OfRank(us, 1) + OfRank(us, 0)
  }

  /** The place before the first utterance of lower priority, else the end. */
  function InsertPos(queue: seq<Utterance>, u: Utterance): (pos: nat)
    ensures pos <= |queue|
    ensures forall i | 0 <= i < pos :: queue[i].priority.Rank() >= u.priority.Rank()
    ensures pos < |queue| ==> queue[pos].priority.Rank() < u.priority.Rank()
  {
    if queue == [] || queue[0].priority.Rank() < u.priority.Rank() then 0
    else 1 + InsertPos(queue[1..], u)
  }

  function Insert(queue: seq<Utterance>, u: Utterance): seq<Utterance> {
    var pos := InsertPos(queue, u);
    queue[..pos] + [u] + queue[pos..]
  }

  lemma {:induction false} RanksOf(us: seq<Utterance>, rank: nat)
    ensures forall i | 0 <= i < |OfRank(us, rank)| :: OfRank(us, rank)[i].priority.Rank() == rank
  {
    if us != [] {
      RanksOf(us[..|us| - 1], rank);
    }
  }

  lemma {:induction false} OfRankAppend(us: seq<Utterance>, u: Utterance, rank: nat)
    ensures OfRank(us + [u], rank) == OfRank(us, rank) + if u.priority.Rank() == rank then [u] else []
  {
    assert (us + [u])[..|us|] == us;
  }

  /** The insertion point is where a queue splits into at-least and below. */
  lemma {:induction false} InsertBetween(hi: seq<Utterance>, lo: seq<Utterance>, u: Utterance)
    requires forall i | 0 <= i < |hi| :: hi[i].priority.Rank() >= u.priority.Rank()
    requires forall i | 0 <= i < |lo| :: lo[i].priority.Rank() < u.priority.Rank()
    ensures Insert(hi + lo, u) == hi + [u] + lo
  {
    var queue := hi + lo;
    var pos := InsertPos(queue, u);
    assert forall i | 0 <= i < |hi| :: queue[i] == hi[i];
    assert lo != [] ==> queue[|hi|] == lo[0];
    assert pos == |hi|;
    assert queue[..pos] == hi && queue[pos..] == lo;
  }

  /** Inserting into the stable sort is the stable sort of the longer list. */
  lemma {:induction false} InsertIsStableSort(us: seq<Utterance>, u: Utterance)
    ensures Insert(StableSort(us), u) == StableSort(us + [u])
  {
    hide Insert, InsertPos, OfRank;
    var a, b, c, d := OfRank(us, 3), OfRank(us, 2), OfRank(us, 1), OfRank(us, 0);
    RanksOf(us, 3);
    RanksOf(us, 2);
    RanksOf(us, 1);
    RanksOf(us, 0);
    OfRankAppend(us, u, 3);
    OfRankAppend(us, u, 2);
    OfRankAppend(us, u, 1);
    OfRankAppend(us, u, 0);
    match u.priority {
      case Urgent =>
        InsertBetween(a, b + c + d, u);
        assert StableSort(us) == a + (b + c + d);
        assert StableSort(us + [u]) == a + [u] + (b + c + d);
      case High =>
        InsertBetween(a + b, c + d, u);
        assert StableSort(us) == (a + b) + (c + d);
        assert StableSort(us + [u]) == (a + b) + [u] + (c + d);
      case Normal =>
        InsertBetween(a + b + c, d, u);
        assert StableSort(us + [u]) == (a + b + c) + [u] + d;
      case Low =>
        InsertBetween(a + b + c + d, [], u);
        assert StableSort(us) == (a + b + c + d) + [];
    }
  }

  /** Remove the first occurrence of the highest priority: what the front of the queue is. */
  function FrontIndex(us: seq<Utterance>): (i: nat)
    requires us != []
    ensures i < |us|
    ensures forall j | 0 <= j < |us| :: us[j].priority.Rank() <= us[i].priority.Rank()
    ensures forall j | 0 <= j < i :: us[j].priority.Rank() < us[i].priority.Rank()
  {
    var n := |us| - 1;
    if n == 0 then 0
    else
      var i := FrontIndex(us[..n]);
      if us[n].priority.Rank() > us[i].priority.Rank() then n else i
  }

  function Without(us: seq<Utterance>, i: nat): seq<Utterance>
    requires i < |us|
  {
    us[..i] + us[i + 1..]
  }

  lemma {:induction false} OfRankConcat(a: seq<Utterance>, b: seq<Utterance>, rank: nat)
    ensures OfRank(a + b, rank) == OfRank(a, rank) + OfRank(b, rank)
  {
    if b == [] {
      assert a + b == a;
    } else {
      var n := |b| - 1;
      assert (a + b)[..|a| + n] == a + b[..n];
      OfRankConcat(a, b[..n], rank);
    }
  }

  lemma {:induction false} OfRankNone(us: seq<Utterance>, rank: nat)
    requires forall i | 0 <= i < |us| :: us[i].priority.Rank() != rank
    ensures OfRank(us, rank) == []
  {
    if us != [] {
      OfRankNone(us[..|us| - 1], rank);
    }
  }

  lemma OfRankOne(u: Utterance, rank: nat)
    ensures OfRank([u], rank) == if u.priority.Rank() == rank then [u] else []
  {
    assert [u][..0] == [];
  }

  /** One priority class when the front utterance leaves. */
  lemma {:induction false} OfRankWithout(us: seq<Utterance>, i: nat, rank: nat)
    requires us != [] && i == FrontIndex(us)
    ensures rank == us[i].priority.Rank() ==> OfRank(us, rank) == [us[i]] + OfRank(Without(us, i), rank)
    ensures rank != us[i].priority.Rank() ==> OfRank(us, rank) == OfRank(Without(us, i), rank)
    ensures rank > us[i].priority.Rank() ==> OfRank(us, rank) == []
  {
    hide FrontIndex, OfRank;
    var a, b := us[..i], us[i + 1..];
    assert us == a + ([us[i]] + b);
    OfRankConcat(a, [us[i]] + b, rank);
    OfRankConcat([us[i]], b, rank);
    OfRankOne(us[i], rank);
    OfRankConcat(a, b, rank);
    if rank == us[i].priority.Rank() {
      OfRankNone(a, rank);
    }
    if rank > us[i].priority.Rank() {
      OfRankNone(us, rank);
    }
  }

  /** The front of the stable sort is the oldest of the most urgent; the rest is the sort of the rest. */
  lemma {:induction false} StableSortFront(us: seq<Utterance>)
    requires us != []
    ensures var i := FrontIndex(us);
            StableSort(us) == [us[i]] + StableSort(Without(us, i))
  {
    hide OfRank, FrontIndex, Without;
    var i := FrontIndex(us);
    OfRankWithout(us, i, 3);
    OfRankWithout(us, i, 2);
    OfRankWithout(us, i, 1);
    OfRankWithout(us, i, 0);
  }

  lemma StableSortOfNothing()
    ensures StableSort([]) == []
  {
  }

  lemma {:induction false} StableSortLength(us: seq<Utterance>)
    ensures |StableSort(us)| == |us|
  {
    if us != [] {
      var n := |us| - 1;
      StableSortLength(us[..n]);
      assert us == us[..n] + [us[n]];
      hide OfRank;
      OfRankAppend(us[..n], us[n], 3);
      OfRankAppend(us[..n], us[n], 2);
      OfRankAppend(us[..n], us[n], 1);
      OfRankAppend(us[..n], us[n], 0);
    }
  }

  // ---------- the engine ----------

  class TtsEngine {
    var queue: seq<Utterance>
    var current: Option<Utterance>
    var state: TtsState
    var enabled: bool
    /** What was submitted and is still waiting, in submission order. */
    ghost var waiting: seq<Utterance>

    /** The queue is the stable sort of what is waiting; the engine is idle exactly when nothing is current. */
    ghost predicate Valid()
      reads this
    {
      queue == StableSort(waiting) && (state == Idle <==> current.None?)
    }

    constructor ()
      ensures Valid() && waiting == [] && current == None && enabled
    {
      queue, current, state, enabled, waiting := [], None, Idle, true, [];
    }

    method SetEnabled(on: bool)
      requires Valid()
      modifies this`enabled
      ensures Valid() && enabled == on
    {
      enabled := on;
    }

    method Speak(u: Utterance)
      requires Valid()
      modifies this`queue, this`waiting
      ensures Valid()
      ensures waiting == if enabled then old(waiting) + [u] else old(waiting)
    {
      hide StableSort, InsertPos;
      if !enabled {
        return;
      }
      var pos := 0;
      assert queue[0..] == queue;
      while pos < |queue| && !(queue[pos].priority.Rank() < u.priority.Rank())
        invariant 0 <= pos <= |queue| && queue == old(queue) && waiting == old(waiting)
        invariant InsertPos(queue, u) == pos + InsertPos(queue[pos..], u)
      {
        PosStep(queue[pos..], u);
        assert queue[pos..][1..] == queue[pos + 1..];
        pos := pos + 1;
      }
      PosEnd(queue[pos..], u);
      InsertIsStableSort(waiting, u);
      queue := queue[..pos] + [u] + queue[pos..];
      waiting := waiting + [u];
    }

    /** `speak_urgent`: an interruptible current utterance is dropped first. */
    method SpeakUrgent(id: nat, text: string)
      requires Valid()
      modifies this
      ensures Valid() && enabled == old(enabled)
      ensures !enabled ==> queue == old(queue) && waiting == old(waiting) && current == old(current) && state == old(state)
      ensures enabled ==> waiting == old(waiting) + [Utterance(id, text, Urgent, false)]
      ensures enabled ==>
        if old(current).Some? && old(current).value.interruptible then current == None && state == Idle
        else current == old(current) && state == old(state)
    {
      hide StableSort;
      if !enabled {
        return;
      }
      if current.Some? && current.value.interruptible {
        Stop();
      }
      Speak(Utterance(id, text, Urgent, false));
    }

    /** `start_next`: the oldest of the most urgent becomes current. */
    method StartNext() returns (started: bool)
      requires Valid()
      modifies this`queue, this`current, this`state, this`waiting
      ensures Valid() && started == (enabled && old(waiting) != [])
      ensures started ==>
        var i := FrontIndex(old(waiting));
        current == Some(old(waiting)[i]) && waiting == Without(old(waiting), i) && state == Speaking
      ensures !started ==> waiting == old(waiting) && current == old(current) && state == old(state)
    {
      hide StableSort;
      if !enabled {
        return false;
      }
      StableSortLength(waiting);
      if |queue| > 0 {
        StableSortFront(waiting);
        current := Some(queue[0]);
        queue := queue[1..];
        waiting := Without(waiting, FrontIndex(waiting));
        state := Speaking;
        started := true;
      } else {
        started := false;
      }
    }

    method Pause()
      requires Valid()
      modifies this`state
      ensures Valid() && state == if old(state) == Speaking then Paused else old(state)
    {
      if state == Speaking {
        state := Paused;
      }
    }

    method Resume()
      requires Valid()
      modifies this`state
      ensures Valid() && state == if old(state) == Paused then Speaking else old(state)
    {
      if state == Paused {
        state := Speaking;
      }
    }

    method Stop()
      requires Valid()
      modifies this`current, this`state
      ensures Valid() && current == None && state == Idle
    {
      current := None;
      state := Idle;
    }

    method ClearQueue()
      requires Valid()
      modifies this`queue, this`waiting
      ensures Valid() && waiting == []
    {
      queue, waiting := [], [];
    }

    /** `finish_current`: the next utterance starts at once if there is one and speech is enabled. */
    method FinishCurrent()
      requires Valid()
      modifies this`queue, this`current, this`state, this`waiting
      ensures Valid()
      ensures if enabled && old(waiting) != [] then
                var i := FrontIndex(old(waiting));
                current == Some(old(waiting)[i]) && waiting == Without(old(waiting), i) && state == Speaking
              else
                current == None && state == Idle && waiting == old(waiting)
    {
      hide StableSort;
      current := None;
      state := Idle;
      var _ := StartNext();
    }
  }

  // ---------- the order in which utterances are spoken ----------

  /** What `finish_current`, repeated, makes current one after the other. */
  ghost function SpokenOrder(us: seq<Utterance>): seq<Utterance>
    decreases |us|
  {
    if us == [] then []
    else [us[FrontIndex(us)]] + SpokenOrder(Without(us, FrontIndex(us)))
  }

  /** Draining the queue speaks the stable sort of what was submitted. */
  lemma {:induction false} DrainIsStableSort(us: seq<Utterance>)
    ensures SpokenOrder(us) == StableSort(us)
    decreases |us|
  {
    hide FrontIndex, StableSort;
    if us == [] {
      StableSortOfNothing();
    } else {
      StableSortFront(us);
      DrainIsStableSort(Without(us, FrontIndex(us)));
    }
  }

  lemma PosStep(queue: seq<Utterance>, u: Utterance)
    requires queue != [] && !(queue[0].priority.Rank() < u.priority.Rank())
    ensures InsertPos(queue, u) == 1 + InsertPos(queue[1..], u)
  {
  }

  lemma PosEnd(queue: seq<Utterance>, u: Utterance)
    requires queue == [] || queue[0].priority.Rank() < u.priority.Rank()
    ensures InsertPos(queue, u) == 0
  {
  }
}
