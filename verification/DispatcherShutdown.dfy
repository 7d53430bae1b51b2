/** Shutdown: how it can end, and that it does end. */
module DispatcherShutdown {
  import opened Dispatcher
  import opened DispatcherInvariants
  import opened DispatcherDeadlock
  import opened DispatcherLosses

  // ----- the queues a shutdown still has to reach

  predicate NoRepeats(r: seq<nat>) { forall i, j | 0 <= i < j < |r| :: r[i] != r[j] }

  /** The sentinels still to be put go to different queues, none of them full under an exited worker;
      every other live worker has a sentinel in its queue. */
  ghost predicate Todo(chans: seq<Channel>, todo: seq<nat>) {
    && NoRepeats(todo)
    && (forall q | q in todo :: q < |chans| && (chans[q].worker.Exited? ==> !Full(chans[q])))
    && (forall q | 0 <= q < |chans| && Live(chans[q]) :: q in todo || HoldsSentinel(chans[q]))
  }

  ghost predicate StopOk(s: State) { s.stop.Stopping? ==> Todo(s.chans, s.stop.todo) }

  function Image(m: map<string, nat>, keys: set<string>): set<nat>
    requires keys <= m.Keys
  {
    set k | k in keys :: m[k]
  }

  lemma {:induction false} InjectiveSize(m: map<string, nat>, keys: set<string>)
    requires keys <= m.Keys
    requires forall j, k | j in keys && k in keys && j != k :: m[j] != m[k]
    ensures |Image(m, keys)| == |keys|
    decreases |keys|
  {
    if keys == {} {
      assert Image(m, keys) == {};
    } else {
      var k :| k in keys;
      var rest := keys - {k};
      InjectiveSize(m, rest);
      assert Image(m, keys) == Image(m, rest) + {m[k]};
    }
  }

  lemma {:induction false} ElementsSize(r: seq<nat>)
    ensures |Elements(r)| <= |r|
    ensures |Elements(r)| == |r| ==> NoRepeats(r)
    decreases |r|
  {
    if r == [] {
      assert Elements(r) == {};
    } else {
      var n := |r| - 1;
      ElementsSize(r[..n]);
      assert r == r[..n] + [r[n]];
      assert Elements(r) == Elements(r[..n]) + {r[n]};
    }
  }

  lemma QueuesDiffer(s: State)
    requires MapsOk(s)
    ensures |s.queues.Values| == |s.queues|
  {
    forall j, k | j in s.queues && k in s.queues && j != k ensures s.queues[j] != s.queues[k] {
      assert s.chans[s.queues[j]].key == j && s.chans[s.queues[k]].key == k;
    }
    InjectiveSize(s.queues, s.queues.Keys);
    assert s.queues.Values == Image(s.queues, s.queues.Keys);
    assert |s.queues| == |s.queues.Keys|;
  }

  lemma Listed(s: State, order: seq<nat>, q: nat)
    requires MapsOk(s) && Elements(order) == s.queues.Values
    ensures q in order <==> q < |s.chans| && Live(s.chans[q])
  {
    if q in order {
      assert q in Elements(order);
      var k :| k in s.queues && s.queues[k] == q;
    }
    if q < |s.chans| && Live(s.chans[q]) {
      assert s.chans[q].key in s.queues && s.queues[s.chans[q].key] == q;
      assert q in s.queues.Values;
    }
  }

  lemma StopSnapshotStep(input: seq<Record>, s: State, order: seq<nat>)
    requires MapsOk(s) && Enabled(input, s, StopSnapshot(order))
    ensures Todo(s.chans, order)
  {
    QueuesDiffer(s);
    ElementsSize(order);
    forall q: nat ensures q in order <==> q < |s.chans| && Live(s.chans[q]) {
      Listed(s, order, q);
    }
  }

  lemma StopPutStep(chans: seq<Channel>, todo: seq<nat>)
    requires Todo(chans, todo) && todo != []
    ensures todo[0] < |chans|
    ensures Todo(chans[todo[0] := chans[todo[0]].(items := chans[todo[0]].items + [Sentinel])], todo[1..])
  {
    var q := todo[0];
    assert q in todo;
    var c := chans[q].(items := chans[q].items + [Sentinel]);
    assert c.items[|chans[q].items|] == Sentinel;
    forall p | p in todo[1..] ensures p in todo && p != q {
      var i :| 0 <= i < |todo[1..]| && todo[1..][i] == p;
      assert todo[i + 1] == p;
    }
    assert forall p | p in todo :: p == q || p in todo[1..];
  }

  /** A step of a worker changes its own channel: it stays live, or it leaves a queue with room. */
  lemma WorkerKeepsTodo(chans: seq<Channel>, todo: seq<nat>, q: nat, c: Channel)
    requires Todo(chans, todo) && q < |chans| && chans[q].items <= c.items
    requires Live(chans[q]) && (Live(c) || !Full(c))
    ensures Todo(chans[q := c], todo)
  {
    var chans' := chans[q := c];
    if HoldsSentinel(chans[q]) {
      var i :| 0 <= i < |chans[q].items| && chans[q].items[i] == Sentinel;
      assert c.items[i] == Sentinel;
    }
    forall p | p in todo ensures p < |chans'| && (chans'[p].worker.Exited? ==> !Full(chans'[p])) {
      assert p != q ==> chans'[p] == chans[p];
    }
    forall p | 0 <= p < |chans'| && Live(chans'[p]) ensures p in todo || HoldsSentinel(chans'[p]) {
      assert p != q ==> chans'[p] == chans[p];
    }
  }

  lemma WorkerStep(input: seq<Record>, s: State, l: Label)
    requires MapsOk(s) && Enabled(input, s, l) && (l.Acquire? || l.Take? || l.Finish?) && ChannelOk(s.chans[l.q])
    ensures var c := Next(input, s, l).chans[l.q];
            && Next(input, s, l).chans == s.chans[l.q := c] && s.chans[l.q].items <= c.items
            && Live(s.chans[l.q]) && (Live(c) || !Full(c))
    ensures Next(input, s, l).stop == s.stop
  {
  }

  lemma StopOkStep(input: seq<Record>, s: State, l: Label)
    requires Inv(input, s) && StopOk(s) && Enabled(input, s, l)
    ensures StopOk(Next(input, s, l))
  {
    match l
    case StopSnapshot(order) => StopSnapshotStep(input, s, order);
    case StopPut => StopPutStep(s.chans, s.stop.todo);
    case ResumeSentinel(q) => SentinelPutNeverResumes(input, s, q);
    case StopCancel =>
    case Skip =>
    case Accept =>
    case ResumePut =>
    case _ =>
      assert ChannelOk(s.chans[l.q]);
      WorkerStep(input, s, l);
      if s.stop.Stopping? { WorkerKeepsTodo(s.chans, s.stop.todo, l.q, Next(input, s, l).chans[l.q]); }
  }

  lemma {:induction false} StopOkRun(input: seq<Record>, s: State, run: seq<Label>, t: State)
    requires Inv(input, s) && StopOk(s) && Reaches(input, s, run, t)
    ensures StopOk(t)
    decreases |run|
  {
    if run != [] {
      InvStep(input, s, run[0]);
      StopOkStep(input, s, run[0]);
      StopOkRun(input, Next(input, s, run[0]), run[1..], t);
    }
  }

  // ----- how it ends

  lemma {:induction false} ListOf(a: set<nat>) returns (r: seq<nat>)
    ensures Elements(r) == a && |r| == |a|
    decreases |a|
  {
    r := [];
    if a != {} {
      var x :| x in a;
      var rest := ListOf(a - {x});
      r := rest + [x];
      assert Elements(r) == Elements(rest) + {x};
    }
  }

  lemma SnapshotCanBeTaken(input: seq<Record>, s: State) returns (order: seq<nat>)
    requires MapsOk(s) && s.stop.Cancelling?
    ensures Enabled(input, s, StopSnapshot(order))
  {
    order := ListOf(s.queues.Values);
    QueuesDiffer(s);
    forall q: nat | q in order ensures q < |s.chans| {
      Listed(s, order, q);
    }
  }

  /** A worker with a sentinel in its queue is not idle on an empty queue. */
  lemma NotIdle(s: State, q: nat)
    requires q < |s.chans| && ChannelOk(s.chans[q]) && HoldsSentinel(s.chans[q])
    ensures !IdleWorker(s, q)
  {
    var i :| 0 <= i < |s.chans[q].items| && s.chans[q].items[i] == Sentinel;
  }

  ghost predicate NothingEnabled(input: seq<Record>, s: State) { forall l: Label :: !Enabled(input, s, l) }

  /** When nothing at all can move any more, the loop has been cancelled, and either every sentinel has
      been put and every worker has exited, or the shutdown, or what it waits for, is held up by a
      worker that blocks itself or is starved by such. */
  lemma ShutdownEnd(input: seq<Record>, s: State)
    requires Reachable(input, s) && NothingEnabled(input, s)
    ensures s.loop.Cancelled? && s.stop.Stopping?
    ensures || (s.stop.todo == [] && forall q | 0 <= q < |s.chans| :: s.chans[q].worker.Exited?)
            || (exists q: nat :: (SelfBlocked(s, q) || Starved(s, q)) && (s.stop.todo == [] || q == s.stop.todo[0]))
  {
    InvReachable(input, s);
    var run :| Reaches(input, INITIAL, run, s);
    InvInitial(input);
    StopOkRun(input, INITIAL, run, s);
    assert !Enabled(input, s, StopCancel);
    if s.stop.Cancelling? {
      var order := SnapshotCanBeTaken(input, s);
      assert false;
    }
    if s.stop.todo != [] {
      StopPutStep(s.chans, s.stop.todo);
      assert s.stop.todo[0] in s.stop.todo && !Enabled(input, s, StopPut);
      StuckWorker(input, s, s.stop.todo[0]);
    } else if q: nat :| q < |s.chans| && Live(s.chans[q]) {
      StuckWorker(input, s, q);
      assert ChannelOk(s.chans[q]);
      NotIdle(s, q);
    }
  }

  // ----- and that it ends

  function StopWeight(s: State): nat {
    match s.stop
    case Running => 2 + 2 * |s.queues|
    case Cancelling => 1 + 2 * |s.queues|
    case Stopping(todo) => 2 * |todo|
  }

  ghost function TotalMeasure(input: seq<Record>, s: State): int
    requires Channels(s.chans)
  {
    Measure(input, s) + 2 * (|input| - s.next) + StopWeight(s)
  }

  lemma QueuesSize(input: seq<Record>, s: State, l: Label)
    requires Enabled(input, s, l) && !IsStop(l)
    ensures Next(input, s, l).stop == s.stop
    ensures |Next(input, s, l).queues| <= |s.queues| + if l.Accept? then 1 else 0
    ensures Next(input, s, l).next == s.next + if l.Accept? || l.Skip? then 1 else 0
  {
    var t := Next(input, s, l);
    if l.Accept? {
      AddKey(s.queues, input[s.next].key, |s.chans|);
    } else if l.Take? {
      DropKey(s.queues, s.chans[l.q].key);
    }
  }

  lemma AddKey(m: map<string, nat>, k: string, v: nat)
    ensures |m[k := v]| <= |m| + 1
  {
    assert m[k := v].Keys == m.Keys + {k};
    assert |m[k := v]| == |m[k := v].Keys| && |m| == |m.Keys|;
  }

  lemma DropKey(m: map<string, nat>, k: string)
    ensures |m - {k}| <= |m|
  {
    assert m.Keys == (m - {k}).Keys + (m.Keys * {k});
    assert |m - {k}| == |(m - {k}).Keys| && |m| == |m.Keys|;
  }

  lemma StopDrops(input: seq<Record>, s: State, l: Label)
    requires Inv(input, s) && StopOk(s) && Enabled(input, s, l) && IsStop(l)
    ensures Channels(Next(input, s, l).chans) && TotalMeasure(input, Next(input, s, l)) < TotalMeasure(input, s)
  {
    ChannelsStep(input, s, l);
    if l.StopPut? {
      var q := s.stop.todo[0];
      assert ChannelOk(s.chans[q]);
      QueueWeightAppend(s.chans[q].items, s.chans[q].head, Sentinel);
      ChannelsWeightUpdate(s.chans, q, Next(input, s, l).chans[q]);
    }
  }

  lemma {:induction false} TotalBound(input: seq<Record>, s: State, run: seq<Label>, t: State)
    requires Inv(input, s) && StopOk(s) && Reaches(input, s, run, t)
    ensures |run| <= TotalMeasure(input, s)
    decreases |run|
  {
    if run == [] {
      assert Measure(input, s) >= 0;
    } else {
      var l, s1 := run[0], Next(input, s, run[0]);
      InvStep(input, s, l);
      StopOkStep(input, s, l);
      if IsStop(l) {
        StopDrops(input, s, l);
      } else {
        MeasureDrops(input, s, l);
        QueuesSize(input, s, l);
      }
      TotalBound(input, s1, run[1..], t);
    }
  }

  /** Every run is finite, shutdown included; so every maximal run ends as ShutdownEnd says. */
  lemma AllRunsAreFinite(input: seq<Record>, run: seq<Label>, t: State)
    requires Reaches(input, INITIAL, run, t)
    ensures |run| <= 9 * |input| + 2
  {
    InvInitial(input);
    TotalBound(input, INITIAL, run, t);
  }
}
