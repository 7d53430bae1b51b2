/** When the dispatcher can stop short of its input, and that every run is finite. */
module DispatcherDeadlock {
  import opened Dispatcher
  import opened DispatcherInvariants
  import opened DispatcherTheorems

  predicate IsStop(l: Label) { l.StopCancel? || l.StopSnapshot? || l.StopPut? }

  /** No step of the loop or of any worker is enabled. */
  ghost predicate Stuck(input: seq<Record>, s: State) {
    forall l | !IsStop(l) :: !Enabled(input, s, l)
  }

  /** The worker waits to put its own sentinel into its own full queue. */
  predicate SelfBlocked(s: State, q: nat) {
    q < |s.chans| && s.chans[q].worker == PuttingSentinel(q) && Full(s.chans[q])
  }

  predicate IdleWorker(s: State, q: nat) {
    q < |s.chans| && s.chans[q].worker.WaitItem? && Depth(s.chans[q]) == 0
  }

  /** The worker waits for a permit while each of the permits is held by a worker that waits on
      an empty queue or on its own sentinel. */
  ghost predicate Starved(s: State, q: nat) {
    && q < |s.chans| && s.chans[q].worker.WaitPermit? && s.permits == 0
    && |Holders(s.chans)| == MAX_CONCURRENT_CONVS
    && forall h | h in Holders(s.chans) :: IdleWorker(s, h) || SelfBlocked(s, h)
  }

  lemma HandlerCanFinish(input: seq<Record>, s: State, q: nat)
    requires Inv(input, s) && q < |s.chans| && s.chans[q].worker.Handling?
    ensures Enabled(input, s, Finish(q, true))
  {
    var c := s.chans[q];
    assert ChannelOk(c);
    assert Has(c, c.head - 1, c.worker.off);
  }

  lemma LoopCanFetch(input: seq<Record>, s: State)
    requires Inv(input, s) && s.loop.Idle? && s.next < |input|
    ensures Enabled(input, s, Skip) || Enabled(input, s, Accept)
  {
  }

  lemma StuckHolder(input: seq<Record>, s: State, q: nat)
    requires Inv(input, s) && Stuck(input, s) && q < |s.chans| && Holder(s.chans[q])
    ensures IdleWorker(s, q) || SelfBlocked(s, q)
  {
    assert ChannelOk(s.chans[q]);
    assert !Enabled(input, s, Take(q)) && !Enabled(input, s, Finish(q, true));
    if s.chans[q].worker.Handling? {
      HandlerCanFinish(input, s, q);
    }
  }

  lemma StuckWorker(input: seq<Record>, s: State, q: nat)
    requires Inv(input, s) && Stuck(input, s) && q < |s.chans|
    ensures s.chans[q].worker.Exited? || IdleWorker(s, q) || SelfBlocked(s, q) || Starved(s, q)
  {
    if s.chans[q].worker.WaitPermit? {
      assert !Enabled(input, s, Acquire(q));
      forall h | h in Holders(s.chans) ensures IdleWorker(s, h) || SelfBlocked(s, h) {
        StuckHolder(input, s, h);
      }
    } else if Holder(s.chans[q]) {
      StuckHolder(input, s, q);
    }
  }

  /** The payload's conversation has a worker that blocks itself or is starved. */
  ghost predicate WaitsOn(input: seq<Record>, s: State, off: nat, q: nat) {
    q < |s.chans| && KeyOf(input, off, s.chans[q].key) && (SelfBlocked(s, q) || Starved(s, q))
  }

  /** Deadlock, characterised.  In a stuck state outside shutdown, every pending payload waits on a
      worker that blocks itself or is starved of permits, and if input or a put remains, the loop
      is blocked on the queue of such a worker. */
  lemma Deadlock(input: seq<Record>, s: State)
    requires Reachable(input, s) && s.stop.Running? && Stuck(input, s)
    ensures forall off | Pending(s, off) :: exists q: nat :: WaitsOn(input, s, off, q)
    ensures s.next < |input| || s.loop.Blocked? ==>
              s.loop.Blocked? && (SelfBlocked(s, s.loop.target) || Starved(s, s.loop.target))
  {
    InvReachable(input, s);
    StuckLoop(input, s);
    forall off | Pending(s, off) ensures exists q: nat :: WaitsOn(input, s, off, q) {
      if s.loop.Blocked? && s.loop.off == off {
        assert WaitsOn(input, s, off, s.loop.target);
      } else {
        var q: nat, i: nat :| InQueue(s.chans, q, i, off) && s.chans[q].head <= i && !SentinelBefore(s.chans[q], i);
        StuckWorker(input, s, q);
        assert ChannelOk(s.chans[q]) && Has(s.chans[q], i, off);
        assert WaitsOn(input, s, off, q);
      }
    }
  }

  lemma StuckLoop(input: seq<Record>, s: State)
    requires Inv(input, s) && s.stop.Running? && Stuck(input, s)
    ensures s.next < |input| || s.loop.Blocked? ==>
              s.loop.Blocked? && (SelfBlocked(s, s.loop.target) || Starved(s, s.loop.target))
  {
    if s.loop.Blocked? {
      assert !Enabled(input, s, ResumePut);
      StuckWorker(input, s, s.loop.target);
    } else if s.next < |input| {
      LoopCanFetch(input, s);
    }
  }

  /** Without such a worker the dispatcher finishes: all input accepted, and all of it
      dispatched but what is doomed. */
  lemma OtherwiseComplete(input: seq<Record>, s: State)
    requires Reachable(input, s) && s.stop.Running? && Stuck(input, s)
    requires forall q | 0 <= q < |s.chans| :: !SelfBlocked(s, q) && !Starved(s, q)
    ensures s.next == |input|
    ensures forall off: nat | off < |input| && input[off].Event? :: off in s.dispatched || Doomed(s, off)
  {
    InvReachable(input, s);
    Deadlock(input, s);
    forall off: nat | off < |input| && input[off].Event? ensures off in s.dispatched || Doomed(s, off) {
      Conservation(input, s, off);
    }
  }

  // ----- a worker that blocks itself

  /** The return of this worker's chat_end handler with its own queue full. */
  predicate EndsFull(input: seq<Record>, s: State, l: Label, q: nat) {
    && l == Finish(q, true) && q < |s.chans| && Full(s.chans[q])
    && s.chans[q].worker.Handling? && s.chans[q].worker.off < |input|
    && input[s.chans[q].worker.off].Event? && input[s.chans[q].worker.off].kind.ChatEnd?
  }

  lemma SelfBlockFinish(input: seq<Record>, s: State, q: nat, ok: bool)
    requires MapsOk(s) && Enabled(input, s, Finish(q, ok))
    ensures SelfBlocked(Next(input, s, Finish(q, ok)), q) <==> EndsFull(input, s, Finish(q, ok), q)
  {
  }

  /** A worker comes to block itself in exactly one way: a chat_end handler returns while its
      conversation's queue is full. */
  lemma SelfBlockArises(input: seq<Record>, s: State, l: Label, q: nat)
    requires Inv(input, s) && Enabled(input, s, l) && q < |s.chans| && !SelfBlocked(s, q)
    ensures SelfBlocked(Next(input, s, l), q) <==> EndsFull(input, s, l, q)
  {
    assert ChannelOk(s.chans[q]);
    if l.Finish? {
      if l.q == q { SelfBlockFinish(input, s, q, l.ok); } else { FinishElsewhere(input, s, l.q, l.ok, q); }
    }
  }

  lemma FinishElsewhere(input: seq<Record>, s: State, p: nat, ok: bool, q: nat)
    requires MapsOk(s) && Enabled(input, s, Finish(p, ok)) && q < |s.chans| && p != q
    ensures FinishHandler(input, s, p, ok).chans[q] == s.chans[q]
  {
  }

  /** The step that would complete such a put is never enabled. */
  lemma SentinelPutNeverResumes(input: seq<Record>, s: State, q: nat)
    requires Inv(input, s)
    ensures !Enabled(input, s, ResumeSentinel(q))
  {
    assert q < |s.chans| ==> ChannelOk(s.chans[q]);
  }

  /** It never recovers, for the worker is its queue's only reader. */
  lemma {:induction false} SelfBlockedForever(input: seq<Record>, s: State, run: seq<Label>, t: State, q: nat)
    requires Inv(input, s) && SelfBlocked(s, q) && Reaches(input, s, run, t)
    ensures SelfBlocked(t, q) && t.chans[q] == s.chans[q]
    decreases |run|
  {
    if run != [] {
      InvStep(input, s, run[0]);
      SelfBlockedStep(input, s, run[0], q);
      SelfBlockedForever(input, Next(input, s, run[0]), run[1..], t, q);
    }
  }

  lemma SelfBlockedStep(input: seq<Record>, s: State, l: Label, q: nat)
    requires Inv(input, s) && SelfBlocked(s, q) && Enabled(input, s, l)
    ensures SelfBlocked(Next(input, s, l), q) && Next(input, s, l).chans[q] == s.chans[q]
  {
    if l.Finish? {
      FinishElsewhere(input, s, l.q, l.ok, q);
    } else {
      assert ChannelOk(s.chans[q]);
    }
  }

  /** While the loop waits on the queue of a starved worker, nothing at all moves: the idle workers that
      hold the permits could only be ended through the loop. */
  lemma StarvedIsStuck(input: seq<Record>, s: State)
    requires Inv(input, s) && s.loop.Blocked? && Starved(s, s.loop.target)
    ensures Stuck(input, s)
  {
    forall l: Label | !IsStop(l) ensures !Enabled(input, s, l) {
      if (l.Acquire? || l.Take? || l.Finish? || l.ResumeSentinel?) && l.q < |s.chans| && Holder(s.chans[l.q]) {
        assert l.q in Holders(s.chans);
      }
    }
  }

  /** Once the loop waits on the queue of a worker that blocks itself or is starved, no further record
      of any conversation is accepted until the loop is cancelled. */
  lemma {:induction false} WholeLoopStalls(input: seq<Record>, s: State, run: seq<Label>, t: State)
    requires Inv(input, s) && s.loop.Blocked? && (SelfBlocked(s, s.loop.target) || Starved(s, s.loop.target))
    requires Reaches(input, s, run, t)
    ensures t.next == s.next && (t.loop == s.loop || t.loop.Cancelled?)
    decreases |run|
  {
    if run != [] {
      var s1 := Next(input, s, run[0]);
      InvStep(input, s, run[0]);
      StallStep(input, s, run[0]);
      if s1.loop.Blocked? {
        WholeLoopStalls(input, s1, run[1..], t);
      } else {
        StaysCancelled(input, s1, run[1..], t);
      }
    }
  }

  lemma StallStep(input: seq<Record>, s: State, l: Label)
    requires Inv(input, s) && s.loop.Blocked? && Enabled(input, s, l)
    requires SelfBlocked(s, s.loop.target) || Starved(s, s.loop.target)
    ensures var t := Next(input, s, l);
            && t.next == s.next && (t.loop == s.loop || t.loop.Cancelled?)
            && (t.loop == s.loop ==> SelfBlocked(t, s.loop.target))
  {
    if SelfBlocked(s, s.loop.target) {
      SelfBlockedStep(input, s, l, s.loop.target);
    } else {
      StarvedIsStuck(input, s);
    }
  }

  lemma {:induction false} StaysCancelled(input: seq<Record>, s: State, run: seq<Label>, t: State)
    requires s.loop.Cancelled? && Reaches(input, s, run, t)
    ensures t.next == s.next && t.loop.Cancelled?
    decreases |run|
  {
    if run != [] {
      StaysCancelled(input, Next(input, s, run[0]), run[1..], t);
    }
  }

  lemma {:induction false} ReachesAppend(input: seq<Record>, s: State, run: seq<Label>, t: State, l: Label)
    requires Reaches(input, s, run, t) && Enabled(input, t, l)
    ensures Reaches(input, s, run + [l], Next(input, t, l))
    decreases |run|
  {
    if run == [] {
      assert Reaches(input, Next(input, s, l), [], Next(input, t, l));
      assert (run + [l])[1..] == [];
    } else {
      ReachesAppend(input, Next(input, s, run[0]), run[1..], t, l);
      assert (run + [l])[1..] == run[1..] + [l];
    }
  }

  lemma ReachableNext(input: seq<Record>, s: State, l: Label)
    requires Reachable(input, s) && Enabled(input, s, l)
    ensures Reachable(input, Next(input, s, l))
  {
    var run :| Reaches(input, INITIAL, run, s);
    ReachesAppend(input, INITIAL, run, s, l);
  }

  function Payloads(n: nat): seq<Item> { seq(n, i requires 0 <= i < n => Payload(i)) }

  /** The chat_end at position 0 is being handled and n more payloads of its conversation wait. */
  function Handled(key: string, n: nat): State {
    State(n + 1, Idle, [Channel(key, Payloads(n + 1), 1, Handling(0))],
          map[key := 0], map[key := 0], MAX_CONCURRENT_CONVS - 1, [0], Running)
  }

  /** A chat_end and n more records of its conversation. */
  predicate EndThen(input: seq<Record>, key: string, n: nat) {
    |input| > n && input[0] == Event(key, ChatEnd) && forall i | 1 <= i <= n :: input[i].Event? && input[i].key == key
  }

  lemma {:induction false} ReachHandled(input: seq<Record>, key: string, n: nat)
    requires EndThen(input, key, n) && n <= MAX_QUEUE_SIZE
    ensures Reachable(input, Handled(key, n))
  {
    if n == 0 {
      assert Reaches(input, INITIAL, [], INITIAL);
      var s1 := State(1, Idle, [Channel(key, [Payload(0)], 0, WaitPermit)],
                      map[key := 0], map[key := 0], MAX_CONCURRENT_CONVS, [], Running);
      var c := Channel(key, [], 0, WaitPermit);
      assert INITIAL.chans + [c] == [c] && c.items + [Payload(0)] == [Payload(0)];
      assert Next(input, INITIAL, Accept).chans == [c][0 := c.(items := c.items + [Payload(0)])];
      assert Next(input, INITIAL, Accept) == s1;
      ReachableNext(input, INITIAL, Accept);
      ReachableNext(input, s1, Acquire(0));
      var s2 := Next(input, s1, Acquire(0));
      ReachableNext(input, s2, Take(0));
      assert Payloads(1) == [Payload(0)];
      assert Next(input, s2, Take(0)) == Handled(key, 0);
    } else {
      ReachHandled(input, key, n - 1);
      ReachableNext(input, Handled(key, n - 1), Accept);
      assert Payloads(n) + [Payload(n)] == Payloads(n + 1);
      assert Next(input, Handled(key, n - 1), Accept) == Handled(key, n);
    }
  }

  /** It does happen: a chat_end with 100 later messages behind it, and one more, leaves the worker
      blocked on itself and the loop blocked on the worker. */
  lemma SelfBlockHappens(input: seq<Record>, key: string) returns (s: State)
    requires EndThen(input, key, 101)
    ensures Reachable(input, s) && SelfBlocked(s, 0) && |s.chans[0].items| - s.chans[0].head == 100
    ensures s.loop == Blocked(0, 101) && s.next == 102
  {
    ReachHandled(input, key, MAX_QUEUE_SIZE);
    var h := Handled(key, MAX_QUEUE_SIZE);
    ReachableNext(input, h, Finish(0, true));
    var t := Next(input, h, Finish(0, true));
    ReachableNext(input, t, Accept);
    s := Next(input, t, Accept);
  }

  // ----- every run is finite

  function ItemWeight(item: Item): nat { if item.Payload? then 4 else 1 }

  function QueueWeight(items: seq<Item>, from: nat): nat
    decreases |items| - from
  {
    if from >= |items| then 0 else ItemWeight(items[from]) + QueueWeight(items, from + 1)
  }

  function WorkerWeight(w: Worker): nat {
    match w
    case WaitPermit => 1
    case WaitItem => 0
    case Handling(_) => 3
    case PuttingSentinel(_) => 2
    case Exited => 0
  }

  ghost function ChannelWeight(c: Channel): nat
    requires ChannelOk(c)
  {
    WorkerWeight(c.worker) + QueueWeight(c.items, c.head)
  }

  ghost function ChannelsWeight(chans: seq<Channel>): nat
    requires Channels(chans)
  {
    if chans == [] then 0
    else
      var n := |chans| - 1;
      assert ChannelOk(chans[n]) && Channels(chans[..n]);
      ChannelsWeight(chans[..n]) + ChannelWeight(chans[n])
  }

  /** Steps that can still be taken. */
  ghost function Measure(input: seq<Record>, s: State): int
    requires Channels(s.chans)
  {
    7 * (|input| - s.next) + (if s.loop.Blocked? then 5 else 0) + ChannelsWeight(s.chans)
  }

  lemma {:induction false} QueueWeightAppend(items: seq<Item>, from: nat, item: Item)
    requires from <= |items|
    ensures QueueWeight(items + [item], from) == QueueWeight(items, from) + ItemWeight(item)
    decreases |items| - from
  {
    if from < |items| {
      QueueWeightAppend(items, from + 1, item);
    } else {
      assert QueueWeight(items + [item], from + 1) == 0;
    }
  }

  lemma {:induction false} ChannelsWeightUpdate(chans: seq<Channel>, q: nat, c: Channel)
    requires Channels(chans) && ChannelOk(c) && q < |chans|
    ensures Channels(chans[q := c]) && ChannelOk(chans[q])
    ensures ChannelsWeight(chans[q := c]) == ChannelsWeight(chans) - ChannelWeight(chans[q]) + ChannelWeight(c)
    decreases |chans|
  {
    var n := |chans| - 1;
    assert ChannelOk(chans[q]);
    if q == n {
      assert chans[q := c][..n] == chans[..n];
    } else {
      assert Channels(chans[..n]);
      ChannelsWeightUpdate(chans[..n], q, c);
      assert chans[q := c][..n] == chans[..n][q := c];
    }
  }

  lemma ChannelsWeightCreate(chans: seq<Channel>, c: Channel)
    requires Channels(chans) && ChannelOk(c)
    ensures Channels(chans + [c])
    ensures ChannelsWeight(chans + [c]) == ChannelsWeight(chans) + ChannelWeight(c)
  {
    assert (chans + [c])[..|chans|] == chans;
  }

  lemma MeasureAccept(input: seq<Record>, s: State)
    requires Inv(input, s) && Enabled(input, s, Accept)
    requires Channels(AcceptNext(s, input[s.next].key).chans)
    ensures Measure(input, AcceptNext(s, input[s.next].key)) < Measure(input, s)
  {
    var key := input[s.next].key;
    var s' := AcceptNext(s, key);
    if key in s.queues {
      var q := s.queues[key];
      assert ChannelOk(s.chans[q]) && ChannelOk(s'.chans[q]);
      QueueWeightAppend(s.chans[q].items, s.chans[q].head, Payload(s.next));
      ChannelsWeightUpdate(s.chans, q, s'.chans[q]);
      assert s'.chans == s.chans[q := s'.chans[q]];
    } else {
      var c := s'.chans[|s.chans|];
      assert ChannelOk(c) && c.items == [Payload(s.next)];
      ChannelsWeightCreate(s.chans, c);
      assert s'.chans == s.chans + [c];
      assert QueueWeight(c.items, 1) == 0;
    }
  }

  lemma WorkerStepWeight(input: seq<Record>, s: State, l: Label)
    requires MapsOk(s) && Channels(s.chans) && Enabled(input, s, l) && (l.Acquire? || l.Take? || l.Finish?)
    requires ChannelOk(s.chans[l.q]) && ChannelOk(Next(input, s, l).chans[l.q])
    ensures ChannelWeight(Next(input, s, l).chans[l.q]) < ChannelWeight(s.chans[l.q])
    ensures Next(input, s, l).chans == s.chans[l.q := Next(input, s, l).chans[l.q]]
  {
    QueueWeightAppend(s.chans[l.q].items, s.chans[l.q].head, Sentinel);
  }

  lemma MeasureWorker(input: seq<Record>, s: State, l: Label)
    requires Inv(input, s) && Enabled(input, s, l) && (l.Acquire? || l.Take? || l.Finish?)
    requires Channels(Next(input, s, l).chans)
    ensures Measure(input, Next(input, s, l)) < Measure(input, s)
  {
    var s' := Next(input, s, l);
    assert ChannelOk(s.chans[l.q]) && ChannelOk(s'.chans[l.q]);
    WorkerStepWeight(input, s, l);
    ChannelsWeightUpdate(s.chans, l.q, s'.chans[l.q]);
  }

  lemma MeasureDrops(input: seq<Record>, s: State, l: Label)
    requires Inv(input, s) && Enabled(input, s, l) && !IsStop(l)
    ensures Channels(Next(input, s, l).chans) && Measure(input, Next(input, s, l)) < Measure(input, s)
  {
    ChannelsStep(input, s, l);
    match l
    case Accept => MeasureAccept(input, s);
    case ResumePut =>
      var q := s.loop.target;
      assert ChannelOk(s.chans[q]);
      QueueWeightAppend(s.chans[q].items, s.chans[q].head, Payload(s.loop.off));
      ChannelsWeightUpdate(s.chans, q, Next(input, s, l).chans[q]);
    case Skip =>
    case ResumeSentinel(q) => SentinelPutNeverResumes(input, s, q);
    case _ => MeasureWorker(input, s, l);
  }

  ghost predicate NoStop(run: seq<Label>) { forall i | 0 <= i < |run| :: !IsStop(run[i]) }

  lemma {:induction false} RunBound(input: seq<Record>, s: State, run: seq<Label>, t: State)
    requires Inv(input, s) && Reaches(input, s, run, t) && NoStop(run)
    ensures |run| <= Measure(input, s)
    decreases |run|
  {
    if run != [] {
      InvStep(input, s, run[0]);
      MeasureDrops(input, s, run[0]);
      RunBound(input, Next(input, s, run[0]), run[1..], t);
    }
  }

  /** Outside shutdown a run takes at most seven steps for a record; so every maximal run ends
      stuck, and the deadlock lemma says how. */
  lemma RunsAreFinite(input: seq<Record>, run: seq<Label>, t: State)
    requires Reaches(input, INITIAL, run, t) && NoStop(run)
    ensures |run| <= 7 * |input|
  {
    InvInitial(input);
    RunBound(input, INITIAL, run, t);
  }
}
