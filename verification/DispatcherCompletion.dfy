/** A condition on the input under which everything is dispatched. */
module DispatcherCompletion {
  import opened Dispatcher
  import opened Listings
  import opened DispatcherInvariants
  import opened DispatcherTheorems
  import opened DispatcherDeadlock
  import opened DispatcherLosses
  import opened DispatcherShutdown

  /** No record of a conversation follows a chat_end of it. */
  predicate EndsLast(input: seq<Record>) {
    forall i, j | 0 <= i < j < |input| && IsEnd(input, i) && input[j].Event? :: input[j].key != input[i].key
  }

  predicate IsEnd(input: seq<Record>, off: nat) { off < |input| && input[off].Event? && input[off].kind.ChatEnd? }

  function Conversations(input: seq<Record>): set<string> {
    set i | 0 <= i < |input| && input[i].Event? :: input[i].key
  }

  // ----- what holds before any shutdown

  /** A sentinel is its queue's last item, behind the chat_end that brought it, and its worker has begun
      on nothing since; the queue is some record's conversation's. */
  ghost predicate Calm(input: seq<Record>, c: Channel) {
    && c.key in Conversations(input) && !c.worker.PuttingSentinel?
    && (HoldsSentinel(c) ==>
          && |c.items| >= 2 && c.items[|c.items| - 2].Payload? && IsEnd(input, c.items[|c.items| - 2].off)
          && c.head >= |c.items| - 1 && (c.worker.WaitItem? || c.worker.Exited?))
    && (forall i | 0 <= i < |c.items| - 1 :: c.items[i].Payload?)
  }

  ghost predicate AllCalm(input: seq<Record>, s: State) {
    s.stop.Running? ==> forall q | 0 <= q < |s.chans| :: Calm(input, s.chans[q])
  }

  /** After a later record of its conversation has been read, a queue holds no chat_end. */
  lemma NoEndBefore(input: seq<Record>, s: State, q: nat, off: nat)
    requires EndsLast(input) && Bounded(input, s.chans, off) && q < |s.chans| && KeyOf(input, off, s.chans[q].key)
    requires Calm(input, s.chans[q])
    ensures !HoldsSentinel(s.chans[q])
  {
    var c := s.chans[q];
    if HoldsSentinel(c) {
      var end := c.items[|c.items| - 2].off;
      assert Has(c, |c.items| - 2, end);
    }
  }

  lemma CalmPut(input: seq<Record>, c: Channel, off: nat)
    requires Calm(input, c) && !HoldsSentinel(c)
    ensures Calm(input, c.(items := c.items + [Payload(off)]))
  {
    var c' := c.(items := c.items + [Payload(off)]);
    assert forall i | 0 <= i < |c.items| :: c.items[i] in c.items;
    assert !HoldsSentinel(c');
  }

  lemma CalmAccept(input: seq<Record>, s: State)
    requires EndsLast(input) && Inv(input, s) && AllCalm(input, s) && Enabled(input, s, Accept)
    ensures AllCalm(input, Next(input, s, Accept))
  {
    var key := input[s.next].key;
    var t := Next(input, s, Accept);
    assert key in Conversations(input);
    if s.stop.Running? {
      if key in s.queues {
        var q := s.queues[key];
        NoEndBefore(input, s, q, s.next);
        CalmPut(input, s.chans[q], s.next);
        assert forall p | 0 <= p < |s.chans| && p != q :: t.chans[p] == s.chans[p];
      } else {
        CalmPut(input, Channel(key, [], 0, WaitPermit), s.next);
        assert forall p | 0 <= p < |s.chans| :: t.chans[p] == s.chans[p];
      }
    }
  }

  lemma CalmResume(input: seq<Record>, s: State)
    requires EndsLast(input) && Inv(input, s) && AllCalm(input, s) && Enabled(input, s, ResumePut)
    ensures AllCalm(input, Next(input, s, ResumePut))
  {
    var q := s.loop.target;
    var t := Next(input, s, ResumePut);
    if s.stop.Running? {
      NoEndBefore(input, s, q, s.loop.off);
      CalmPut(input, s.chans[q], s.loop.off);
      assert forall p | 0 <= p < |s.chans| && p != q :: t.chans[p] == s.chans[p];
    }
  }

  /** A chat_end that is being handled is the last item of its queue. */
  lemma EndIsLast(input: seq<Record>, s: State, q: nat)
    requires EndsLast(input) && Inv(input, s) && q < |s.chans| && Calm(input, s.chans[q])
    requires s.chans[q].worker.Handling? && IsEnd(input, s.chans[q].worker.off)
    ensures !HoldsSentinel(s.chans[q]) && |s.chans[q].items| == s.chans[q].head > 0
    ensures s.chans[q].items[s.chans[q].head - 1] == Payload(s.chans[q].worker.off)
  {
    var c := s.chans[q];
    assert ChannelOk(c);
    if c.head < |c.items| {
      assert c.items[c.head] in c.items;
      assert Increasing(c);
      assert Has(c, c.head - 1, c.worker.off) && Has(c, c.head, c.items[c.head].off);
    }
  }

  lemma CalmFinish(input: seq<Record>, s: State, q: nat, ok: bool)
    requires EndsLast(input) && Inv(input, s) && AllCalm(input, s) && Enabled(input, s, Finish(q, ok))
    ensures AllCalm(input, Next(input, s, Finish(q, ok)))
  {
    var t := Next(input, s, Finish(q, ok));
    if s.stop.Running? {
      assert Calm(input, s.chans[q]);
      if IsEnd(input, s.chans[q].worker.off) {
        EndIsLast(input, s, q);
      }
      FinishPuts(input, s, q, ok);
      CalmAfterFinish(input, s, q, ok);
      forall p | 0 <= p < |t.chans| ensures Calm(input, t.chans[p]) {
        if p != q { FinishElsewhere(input, s, q, ok, p); }
      }
    }
  }

  lemma CalmAfterFinish(input: seq<Record>, s: State, q: nat, ok: bool)
    requires MapsOk(s) && Enabled(input, s, Finish(q, ok)) && Calm(input, s.chans[q])
    requires IsEnd(input, s.chans[q].worker.off) ==>
               && !HoldsSentinel(s.chans[q]) && |s.chans[q].items| == s.chans[q].head > 0
               && s.chans[q].items[s.chans[q].head - 1] == Payload(s.chans[q].worker.off)
    ensures Calm(input, Next(input, s, Finish(q, ok)).chans[q])
  {
    var c, c' := s.chans[q], Next(input, s, Finish(q, ok)).chans[q];
    assert c'.items == c.items || c'.items == c.items + [Sentinel];
    assert forall i | 0 <= i < |c.items| :: c.items[i] in c.items;
  }

  lemma CalmTake(input: seq<Record>, s: State, q: nat)
    requires AllCalm(input, s) && Enabled(input, s, Take(q))
    ensures AllCalm(input, Next(input, s, Take(q)))
  {
    var t := Next(input, s, Take(q));
    if s.stop.Running? {
      assert Calm(input, s.chans[q]);
      assert s.chans[q].items[s.chans[q].head] in s.chans[q].items;
      assert forall p | 0 <= p < |s.chans| && p != q :: t.chans[p] == s.chans[p];
    }
  }

  lemma CalmStep(input: seq<Record>, s: State, l: Label)
    requires EndsLast(input) && Inv(input, s) && AllCalm(input, s) && Enabled(input, s, l)
    ensures AllCalm(input, Next(input, s, l))
  {
    match l
    case Accept => CalmAccept(input, s);
    case ResumePut => CalmResume(input, s);
    case Take(q) => CalmTake(input, s, q);
    case Finish(q, ok) => CalmFinish(input, s, q, ok);
    case ResumeSentinel(q) => SentinelPutNeverResumes(input, s, q);
    case Acquire(q) =>
      var t := Next(input, s, l);
      assert s.stop.Running? ==> Calm(input, s.chans[q]);
      assert forall p | 0 <= p < |s.chans| && p != q :: t.chans[p] == s.chans[p];
    case _ =>
  }

  lemma {:induction false} CalmRun(input: seq<Record>, s: State, run: seq<Label>, t: State)
    requires EndsLast(input) && Inv(input, s) && AllCalm(input, s) && Reaches(input, s, run, t)
    ensures AllCalm(input, t)
    decreases |run|
  {
    if run != [] {
      InvStep(input, s, run[0]);
      CalmStep(input, s, run[0]);
      CalmRun(input, Next(input, s, run[0]), run[1..], t);
    }
  }

  // ----- and what follows

  /** No more live workers than conversations. */
  lemma LiveWorkers(input: seq<Record>, s: State, live: set<nat>)
    requires MapsOk(s) && (forall p | 0 <= p < |s.chans| :: Calm(input, s.chans[p]))
    requires forall p | p in live :: p < |s.chans| && Live(s.chans[p])
    ensures |live| <= |Conversations(input)|
  {
    forall k | k in s.queues ensures k in Conversations(input) {
      assert Calm(input, s.chans[s.queues[k]]);
    }
    SubsetSize(s.queues.Keys, Conversations(input));
    QueuesDiffer(s);
    forall p | p in live ensures p in s.queues.Values {
      assert s.chans[p].key in s.queues && s.queues[s.chans[p].key] == p;
    }
    SubsetSize(live, s.queues.Values);
    assert |s.queues.Keys| == |s.queues|;
  }

  /** With no more conversations than permits, none is starved. */
  lemma NoneStarved(input: seq<Record>, s: State, q: nat)
    requires MapsOk(s) && |Conversations(input)| <= MAX_CONCURRENT_CONVS
    requires forall p | 0 <= p < |s.chans| :: Calm(input, s.chans[p])
    ensures !Starved(s, q)
  {
    if Starved(s, q) { LiveWorkers(input, s, Holders(s.chans) + {q}); }
  }

  lemma NoneDoomed(input: seq<Record>, s: State, off: nat)
    requires EndsLast(input) && Inv(input, s) && AllCalm(input, s) && s.stop.Running?
    ensures !Doomed(s, off)
  {
    forall q: nat, i: nat | InQueue(s.chans, q, i, off) ensures !SentinelBefore(s.chans[q], i) {
      assert Calm(input, s.chans[q]);
    }
    if s.loop.Blocked? && s.loop.target < |s.chans| {
      var q := s.loop.target;
      NoEndBefore(input, s, q, s.loop.off);
      SentinelSomewhere(s.chans[q]);
    }
  }

  /** If no record of a conversation follows a chat_end of it and there are no more conversations than
      permits, the dispatcher stops, outside shutdown, only when it has dispatched everything. */
  lemma EverythingDispatched(input: seq<Record>, s: State)
    requires EndsLast(input) && |Conversations(input)| <= 10_000
    requires Reachable(input, s) && s.stop.Running? && Stuck(input, s)
    ensures s.next == |input|
    ensures forall off: nat | off < |input| && input[off].Event? :: off in s.dispatched
  {
    InvReachable(input, s);
    var run :| Reaches(input, INITIAL, run, s);
    InvInitial(input);
    CalmRun(input, INITIAL, run, s);
    forall q | 0 <= q < |s.chans| ensures !SelfBlocked(s, q) && !Starved(s, q) {
      assert Calm(input, s.chans[q]);
      NoneStarved(input, s, q);
    }
    OtherwiseComplete(input, s);
    forall off: nat | off < |input| && input[off].Event? ensures off in s.dispatched {
      NoneDoomed(input, s, off);
    }
  }
}
