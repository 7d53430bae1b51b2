/** What every step of the dispatcher keeps. */
module DispatcherInvariants {
  import opened Options
  import opened Dispatcher

  // ----- the dictionaries and the workers

  /** The two dictionaries agree and name exactly the live workers: at most one for a
      conversation, its latest incarnation.  A worker only ever waits to put into its own queue. */
  ghost predicate Maps(chans: seq<Channel>, queues: map<string, nat>, workers: map<string, nat>) {
    && queues == workers
    && (forall k | k in queues :: queues[k] < |chans| && chans[queues[k]].key == k && Live(chans[queues[k]]))
    && (forall q | 0 <= q < |chans| && Live(chans[q]) :: chans[q].key in queues && queues[chans[q].key] == q)
    && (forall q | 0 <= q < |chans| && chans[q].worker.PuttingSentinel? :: chans[q].worker.target == q)
    && (forall p, q | 0 <= p < q < |chans| && chans[p].key == chans[q].key :: chans[p].worker.Exited?)
  }

  ghost predicate MapsOk(s: State) { Maps(s.chans, s.queues, s.workers) }

  lemma MapsUpdate(chans: seq<Channel>, queues: map<string, nat>, workers: map<string, nat>, q: nat, c: Channel)
    requires Maps(chans, queues, workers) && q < |chans|
    requires c.key == chans[q].key && Live(c) == Live(chans[q])
    requires c.worker.PuttingSentinel? ==> c.worker.target == q
    ensures Maps(chans[q := c], queues, workers)
  {
    assert forall p | 0 <= p < |chans| ::
        chans[q := c][p].key == chans[p].key && Live(chans[q := c][p]) == Live(chans[p]);
  }

  lemma MapsExit(chans: seq<Channel>, queues: map<string, nat>, workers: map<string, nat>, q: nat, c: Channel)
    requires Maps(chans, queues, workers) && q < |chans| && Live(chans[q])
    requires c.key == chans[q].key && c.worker.Exited?
    ensures Maps(chans[q := c], queues - {c.key}, workers - {c.key})
  {
    var chans' := chans[q := c];
    assert forall p | 0 <= p < |chans| && p != q :: chans'[p] == chans[p];
    forall k | k in queues - {c.key}
      ensures queues[k] < |chans'| && chans'[queues[k]].key == k && Live(chans'[queues[k]])
    {
      assert queues[k] != q;
    }
  }

  lemma MapsCreate(chans: seq<Channel>, queues: map<string, nat>, workers: map<string, nat>, c: Channel)
    requires Maps(chans, queues, workers) && c.key !in queues && c.worker.WaitPermit?
    ensures Maps(chans + [c], queues[c.key := |chans|], workers[c.key := |chans|])
  {
    var chans' := chans + [c];
    assert forall p | 0 <= p < |chans| :: chans'[p] == chans[p];
    assert forall p | 0 <= p < |chans| && chans[p].key == c.key :: !Live(chans[p]);
  }

  lemma MapsAccept(input: seq<Record>, s: State)
    requires MapsOk(s) && Enabled(input, s, Accept)
    ensures MapsOk(AcceptNext(s, input[s.next].key))
  {
    var key := input[s.next].key;
    var c := Channel(key, [], 0, WaitPermit);
    if key in s.queues {
      var q := s.queues[key];
      MapsUpdate(s.chans, s.queues, s.workers, q, s.chans[q].(items := s.chans[q].items + [Payload(s.next)]));
    } else {
      MapsCreate(s.chans, s.queues, s.workers, c);
      MapsUpdate(s.chans + [c], s.queues[key := |s.chans|], s.workers[key := |s.chans|], |s.chans|,
                 c.(items := c.items + [Payload(s.next)]));
    }
  }

  lemma MapsStep(input: seq<Record>, s: State, l: Label)
    requires MapsOk(s) && Enabled(input, s, l)
    ensures MapsOk(Next(input, s, l))
  {
    match l
    case Accept => MapsAccept(input, s);
    case ResumePut =>
      var q := s.loop.target;
      MapsUpdate(s.chans, s.queues, s.workers, q, s.chans[q].(items := s.chans[q].items + [Payload(s.loop.off)]));
    case Acquire(q) => MapsUpdate(s.chans, s.queues, s.workers, q, s.chans[q].(worker := WaitItem));
    case Take(q) =>
      var c := Next(input, s, l).chans[q];
      if Live(c) {
        MapsUpdate(s.chans, s.queues, s.workers, q, c);
      } else {
        MapsExit(s.chans, s.queues, s.workers, q, c);
      }
    case Finish(q, ok) =>
      var s' := Next(input, s, l);
      MapsUpdate(s.chans, s.queues, s.workers, q, s'.chans[q]);
      assert s'.chans == s.chans[q := s'.chans[q]];
    case ResumeSentinel(q) =>
      var s' := Next(input, s, l);
      MapsUpdate(s.chans, s.queues, s.workers, q, s'.chans[q]);
      assert s'.chans == s.chans[q := s'.chans[q]];
    case StopPut =>
      var q := s.stop.todo[0];
      MapsUpdate(s.chans, s.queues, s.workers, q, s.chans[q].(items := s.chans[q].items + [Sentinel]));
    case _ =>
  }

  // ----- the permits

  function Holders(chans: seq<Channel>): set<nat> {
    set q: nat | q < |chans| && Holder(chans[q])
  }

  ghost predicate PermitsOk(s: State) {
    s.permits + |Holders(s.chans)| == MAX_CONCURRENT_CONVS
  }

  lemma HoldersUpdate(chans: seq<Channel>, q: nat, c: Channel)
    requires q < |chans|
    ensures |Holders(chans[q := c])| ==
            |Holders(chans)| - (if Holder(chans[q]) then 1 else 0) + (if Holder(c) then 1 else 0)
  {
    var chans' := chans[q := c];
    assert forall p: nat | p < |chans| && p != q :: chans'[p] == chans[p];
    var rest := Holders(chans) - {q};
    assert Holders(chans') - {q} == rest;
    assert Holders(chans) == if Holder(chans[q]) then rest + {q} else rest;
    assert Holders(chans') == if Holder(c) then rest + {q} else rest;
  }

  lemma HoldersCreate(chans: seq<Channel>, c: Channel)
    requires !Holder(c)
    ensures Holders(chans + [c]) == Holders(chans)
  {
  }

  lemma PermitsAccept(s: State, key: string)
    requires MapsOk(s) && PermitsOk(s)
    ensures PermitsOk(AcceptNext(s, key))
  {
    var s' := AcceptNext(s, key);
    var c := Channel(key, [], 0, WaitPermit);
    if key in s.queues {
      var q := s.queues[key];
      HoldersUpdate(s.chans, q, s'.chans[q]);
      assert s'.chans == s.chans[q := s'.chans[q]];
    } else {
      HoldersCreate(s.chans, c);
      HoldersUpdate(s.chans + [c], |s.chans|, s'.chans[|s.chans|]);
      assert s'.chans == (s.chans + [c])[|s.chans| := s'.chans[|s.chans|]];
    }
  }

  lemma PermitsStep(input: seq<Record>, s: State, l: Label)
    requires MapsOk(s) && PermitsOk(s) && Enabled(input, s, l)
    ensures PermitsOk(Next(input, s, l))
  {
    var s' := Next(input, s, l);
    match l
    case Accept => PermitsAccept(s, input[s.next].key);
    case ResumePut => HoldersUpdate(s.chans, s.loop.target, s'.chans[s.loop.target]);
    case Acquire(q) => HoldersUpdate(s.chans, q, s'.chans[q]);
    case Take(q) => HoldersUpdate(s.chans, q, s'.chans[q]);
    case Finish(q, ok) =>
      HoldersUpdate(s.chans, q, s'.chans[q]);
      assert s'.chans == s.chans[q := s'.chans[q]];
    case ResumeSentinel(q) =>
      HoldersUpdate(s.chans, q, s'.chans[q]);
      assert s'.chans == s.chans[q := s'.chans[q]];
    case StopPut => HoldersUpdate(s.chans, s.stop.todo[0], s'.chans[s.stop.todo[0]]);
    case _ =>
  }

  // ----- each queue and its worker

  /** A worker has taken payloads only, exits at its first sentinel, and its queue is bounded. */
  ghost predicate ChannelOk(c: Channel) {
    && 0 <= c.head <= |c.items|
    && Depth(c) <= MAX_QUEUE_SIZE
    && (forall i | 0 <= i < c.head :: c.items[i].Sentinel? ==> c.worker.Exited? && i == c.head - 1)
    && (c.worker.Exited? ==> c.head > 0 && c.items[c.head - 1].Sentinel?)
    && (c.worker.Handling? ==> c.head > 0 && c.items[c.head - 1] == Payload(c.worker.off))
    && (c.worker.WaitPermit? ==> c.head == 0)
    && (c.worker.PuttingSentinel? ==> Full(c))
  }

  lemma ChannelPut(c: Channel, item: Item)
    requires ChannelOk(c) && !Full(c)
    ensures ChannelOk(c.(items := c.items + [item]))
  {
  }

  lemma ChannelTake(c: Channel)
    requires ChannelOk(c) && c.worker.WaitItem? && Depth(c) > 0
    ensures ChannelOk(c.(head := c.head + 1, worker := match c.items[c.head]
                                                       case Payload(off) => Handling(off)
                                                       case Sentinel => Exited))
  {
  }

  ghost predicate Channels(chans: seq<Channel>) {
    forall q | 0 <= q < |chans| :: ChannelOk(chans[q])
  }

  lemma ChannelsAccept(s: State, key: string)
    requires MapsOk(s) && Channels(s.chans)
    ensures Channels(AcceptNext(s, key).chans)
  {
    var q := if key in s.queues then s.queues[key] else |s.chans|;
    var c := if key in s.queues then s.chans[q] else Channel(key, [], 0, WaitPermit);
    if !Full(c) { ChannelPut(c, Payload(s.next)); }
    var chans' := AcceptNext(s, key).chans;
    assert forall p | 0 <= p < |chans'| && p != q :: chans'[p] == s.chans[p];
  }

  lemma ChannelsFinish(input: seq<Record>, s: State, q: nat, ok: bool)
    requires MapsOk(s) && Channels(s.chans) && Enabled(input, s, Finish(q, ok))
    ensures Channels(FinishHandler(input, s, q, ok).chans)
  {
    if !Full(s.chans[q]) { ChannelPut(s.chans[q], Sentinel); }
    var chans' := FinishHandler(input, s, q, ok).chans;
    assert forall p | 0 <= p < |chans'| && p != q :: chans'[p] == s.chans[p];
  }

  lemma ChannelsStep(input: seq<Record>, s: State, l: Label)
    requires MapsOk(s) && Channels(s.chans) && Enabled(input, s, l)
    ensures Channels(Next(input, s, l).chans)
  {
    match l
    case Accept => ChannelsAccept(s, input[s.next].key);
    case ResumePut => ChannelPut(s.chans[s.loop.target], Payload(s.loop.off));
    case Take(q) => ChannelTake(s.chans[q]);
    case Finish(q, ok) => ChannelsFinish(input, s, q, ok);
    case StopPut => ChannelPut(s.chans[s.stop.todo[0]], Sentinel);
    case _ =>
  }

  /** A queue the loop waits on has room if its worker has exited, and none if it has not begun. */
  predicate RoomOk(c: Channel) { (c.worker.Exited? ==> !Full(c)) && (c.worker.WaitPermit? ==> Full(c)) }

  ghost predicate LoopOk(s: State) {
    && (s.loop.Blocked? ==> s.loop.target < |s.chans| && RoomOk(s.chans[s.loop.target]))
    && (s.stop.Running? <==> !s.loop.Cancelled?)
  }

  /** A worker that exits while the loop waits on its queue leaves room for that put. */
  lemma LoopStep(input: seq<Record>, s: State, l: Label)
    requires MapsOk(s) && Channels(s.chans) && LoopOk(s) && Enabled(input, s, l)
    ensures LoopOk(Next(input, s, l))
  {
    if s.loop.Blocked? && !l.ResumePut? && !l.StopCancel? {
      BlockedStep(input, s, l);
    }
  }

  lemma BlockedStep(input: seq<Record>, s: State, l: Label)
    requires MapsOk(s) && Channels(s.chans) && LoopOk(s) && Enabled(input, s, l)
    requires s.loop.Blocked? && !l.ResumePut? && !l.StopCancel?
    ensures var t := Next(input, s, l);
            t.loop == s.loop && t.stop == s.stop && |t.chans| == |s.chans|
            && RoomOk(t.chans[s.loop.target])
  {
    assert ChannelOk(s.chans[s.loop.target]);
  }

  // ----- the order of payloads

  predicate Has(c: Channel, i: int, off: nat) {
    0 <= i < |c.items| && c.items[i] == Payload(off)
  }

  predicate KeyOf(input: seq<Record>, off: nat, key: string) {
    off < |input| && input[off].Event? && input[off].key == key
  }

  /** A queue holds its own conversation's payloads, all below bound. */
  ghost predicate Bounded(input: seq<Record>, chans: seq<Channel>, bound: nat) {
    forall q, i: int, off: nat | 0 <= q < |chans| && Has(chans[q], i, off) ::
      off < bound && KeyOf(input, off, chans[q].key)
  }

  ghost predicate Increasing(c: Channel) {
    forall i: int, j: int, a: nat, b: nat | i < j && Has(c, i, a) && Has(c, j, b) :: a < b
  }

  ghost predicate AllBelow(c: Channel, d: Channel) {
    forall i: int, j: int, a: nat, b: nat | Has(c, i, a) && Has(d, j, b) :: a < b
  }

  /** Each queue in input order, a later incarnation after an earlier one. */
  ghost predicate Ordered(chans: seq<Channel>) {
    && (forall q | 0 <= q < |chans| :: Increasing(chans[q]))
    && (forall p, q | 0 <= p < q < |chans| && chans[p].key == chans[q].key :: AllBelow(chans[p], chans[q]))
  }

  /** q is the conversation's last incarnation. */
  ghost predicate Latest(chans: seq<Channel>, q: nat) {
    q < |chans| && forall p | q < p < |chans| :: chans[p].key != chans[q].key
  }

  /** The payload the loop holds outside every queue: waiting to be put, or dropped by a cancel. */
  function Held(s: State): Option<nat> {
    match s.loop
    case Idle => None
    case Blocked(_, off) => Some(off)
    case Cancelled(dropped) => dropped
  }

  /** Every payload in a queue is older than this. */
  function Bound(s: State): nat {
    if Held(s).Some? then Held(s).value else s.next
  }

  ghost predicate OrderOk(input: seq<Record>, s: State) {
    && s.next <= |input|
    && Ordered(s.chans)
    && Bounded(input, s.chans, Bound(s))
    && (Held(s).Some? ==> Held(s).value < s.next && input[Held(s).value].Event?)
    && (s.loop.Blocked? ==> Latest(s.chans, s.loop.target) && KeyOf(input, s.loop.off, s.chans[s.loop.target].key))
  }

  /** Putting a payload later than all others into a latest incarnation keeps the order. */
  lemma OrderAppend(input: seq<Record>, chans: seq<Channel>, q: nat, item: Item, bound: nat, bound': nat)
    requires Ordered(chans) && Bounded(input, chans, bound) && bound <= bound' && q < |chans|
    requires item.Payload? ==> Latest(chans, q) && item.off == bound < bound' && KeyOf(input, bound, chans[q].key)
    ensures var chans' := chans[q := chans[q].(items := chans[q].items + [item])];
            Ordered(chans') && Bounded(input, chans', bound')
  {
    var d := chans[q].(items := chans[q].items + [item]);
    var chans' := chans[q := d];
    assert forall i: int, a: nat | Has(d, i, a) :: Has(chans[q], i, a) || (item == Payload(a) && i == |chans[q].items|);
    assert forall i: int, a: nat | Has(chans[q], i, a) :: a < bound;
    forall p | 0 <= p < |chans'| ensures Increasing(chans'[p]) {
      assert Increasing(chans[p]);
    }
    forall p, r | 0 <= p < r < |chans'| && chans'[p].key == chans'[r].key ensures AllBelow(chans'[p], chans'[r]) {
      assert AllBelow(chans[p], chans[r]);
      assert forall i: int, a: nat | Has(chans[p], i, a) :: a < bound;
    }
  }

  /** The order does not depend on cursors or workers. */
  lemma OrderSameItems(input: seq<Record>, chans: seq<Channel>, chans': seq<Channel>, bound: nat)
    requires Ordered(chans) && Bounded(input, chans, bound) && |chans| == |chans'|
    requires forall q | 0 <= q < |chans| :: chans'[q].key == chans[q].key && chans'[q].items == chans[q].items
    ensures Ordered(chans') && Bounded(input, chans', bound)
  {
    assert forall q, i: int, off: nat | 0 <= q < |chans| :: Has(chans'[q], i, off) == Has(chans[q], i, off);
    forall q | 0 <= q < |chans'| ensures Increasing(chans'[q]) {
      assert Increasing(chans[q]);
    }
    forall p, q | 0 <= p < q < |chans'| && chans'[p].key == chans'[q].key ensures AllBelow(chans'[p], chans'[q]) {
      assert AllBelow(chans[p], chans[q]);
    }
  }

  lemma OrderCreate(input: seq<Record>, chans: seq<Channel>, c: Channel, bound: nat)
    requires Ordered(chans) && Bounded(input, chans, bound) && c.items == []
    ensures Ordered(chans + [c]) && Bounded(input, chans + [c], bound)
  {
    var chans' := chans + [c];
    forall q | 0 <= q < |chans'| ensures Increasing(chans'[q]) {
      assert q < |chans| ==> Increasing(chans[q]);
    }
    forall p, q | 0 <= p < q < |chans'| && chans'[p].key == chans'[q].key ensures AllBelow(chans'[p], chans'[q]) {
      assert q < |chans| ==> AllBelow(chans[p], chans[q]);
    }
  }

  lemma OrderAccept(input: seq<Record>, s: State, key: string)
    requires MapsOk(s) && OrderOk(input, s) && s.loop.Idle? && KeyOf(input, s.next, key)
    ensures OrderOk(input, AcceptNext(s, key))
  {
    if key in s.queues {
      var q := s.queues[key];
      assert Latest(s.chans, q);
      if !Full(s.chans[q]) { OrderAppend(input, s.chans, q, Payload(s.next), s.next, s.next + 1); }
    } else {
      var c := Channel(key, [], 0, WaitPermit);
      OrderCreate(input, s.chans, c, s.next);
      OrderAppend(input, s.chans + [c], |s.chans|, Payload(s.next), s.next, s.next + 1);
    }
  }

  lemma OrderSentinel(input: seq<Record>, s: State, s': State, q: nat, bound: nat)
    requires Ordered(s.chans) && Bounded(input, s.chans, bound) && q < |s.chans|
    requires |s'.chans| == |s.chans| && s'.chans == s.chans[q := s'.chans[q]] && s'.chans[q].key == s.chans[q].key
    requires s'.chans[q].items == s.chans[q].items || s'.chans[q].items == s.chans[q].items + [Sentinel]
    ensures Ordered(s'.chans) && Bounded(input, s'.chans, bound)
  {
    if s'.chans[q].items != s.chans[q].items {
      OrderAppend(input, s.chans, q, Sentinel, bound, bound);
      OrderSameItems(input, s.chans[q := s.chans[q].(items := s.chans[q].items + [Sentinel])], s'.chans, bound);
    } else {
      OrderSameItems(input, s.chans, s'.chans, bound);
    }
  }

  lemma OrderWorkerStep(input: seq<Record>, s: State, l: Label)
    requires MapsOk(s) && OrderOk(input, s) && Enabled(input, s, l)
    requires l.Acquire? || l.Take? || l.Finish? || l.ResumeSentinel?
    ensures OrderOk(input, Next(input, s, l))
  {
    var s' := Next(input, s, l);
    WorkerStepShape(input, s, l);
    OrderSentinel(input, s, s', l.q, Bound(s));
    assert forall p | 0 <= p < |s.chans| :: s'.chans[p].key == s.chans[p].key;
  }

  /** A worker's step touches no channel but its own, and adds at most a sentinel there. */
  lemma WorkerStepShape(input: seq<Record>, s: State, l: Label)
    requires MapsOk(s) && Enabled(input, s, l) && (l.Acquire? || l.Take? || l.Finish? || l.ResumeSentinel?)
    ensures var s' := Next(input, s, l);
            && s'.next == s.next && s'.loop == s.loop && |s'.chans| == |s.chans|
            && s'.chans == s.chans[l.q := s'.chans[l.q]] && s'.chans[l.q].key == s.chans[l.q].key
            && (s'.chans[l.q].items == s.chans[l.q].items || s'.chans[l.q].items == s.chans[l.q].items + [Sentinel])
  {
  }

  lemma OrderStep(input: seq<Record>, s: State, l: Label)
    requires MapsOk(s) && OrderOk(input, s) && Enabled(input, s, l)
    ensures OrderOk(input, Next(input, s, l))
  {
    if l.Acquire? || l.Take? || l.Finish? || l.ResumeSentinel? {
      OrderWorkerStep(input, s, l);
    } else {
      match l
      case Accept => OrderAccept(input, s, input[s.next].key);
      case ResumePut => OrderAppend(input, s.chans, s.loop.target, Payload(s.loop.off), s.loop.off, s.next);
      case StopPut =>
        var bound := Bound(s);
        OrderAppend(input, s.chans, s.stop.todo[0], Sentinel, bound, bound);
      case _ =>
    }
  }

  // ----- no accepted payload vanishes

  ghost predicate InQueue(chans: seq<Channel>, q: nat, i: nat, off: nat) {
    q < |chans| && Has(chans[q], i, off)
  }

  ghost predicate Queued(chans: seq<Channel>, off: nat) {
    exists q: nat, i: nat :: InQueue(chans, q, i, off)
  }

  ghost predicate Located(s: State, off: nat) {
    Queued(s.chans, off) || Held(s) == Some(off)
  }

  ghost predicate PlacesOk(input: seq<Record>, s: State) {
    s.next <= |input| && forall off: nat | off < s.next && input[off].Event? :: Located(s, off)
  }

  /** Queues only grow: nothing put is ever removed from a queue's record. */
  ghost predicate Grows(chans: seq<Channel>, chans': seq<Channel>) {
    && |chans| <= |chans'|
    && forall q | 0 <= q < |chans| :: chans[q].items <= chans'[q].items && chans[q].key == chans'[q].key
  }

  lemma QueuesGrow(input: seq<Record>, s: State, l: Label)
    requires Enabled(input, s, l)
    ensures Grows(s.chans, Next(input, s, l).chans)
  {
    match l
    case Accept =>
      var s' := AcceptNext(s, input[s.next].key);
      assert forall q | 0 <= q < |s.chans| :: s.chans[q].items <= s'.chans[q].items;
    case Finish(q, ok) => FinishGrows(input, s, q, ok);
    case _ =>
  }

  lemma FinishGrows(input: seq<Record>, s: State, q: nat, ok: bool)
    requires Enabled(input, s, Finish(q, ok))
    ensures Grows(s.chans, FinishHandler(input, s, q, ok).chans)
  {
  }

  lemma StillQueued(chans: seq<Channel>, chans': seq<Channel>, off: nat)
    requires Grows(chans, chans') && Queued(chans, off)
    ensures Queued(chans', off)
  {
    var q: nat, i: nat :| InQueue(chans, q, i, off);
    assert InQueue(chans', q, i, off);
  }

  lemma PlacesStep(input: seq<Record>, s: State, l: Label)
    requires PlacesOk(input, s) && Channels(s.chans) && LoopOk(s) && Enabled(input, s, l)
    ensures PlacesOk(input, Next(input, s, l))
  {
    var s' := Next(input, s, l);
    QueuesGrow(input, s, l);
    forall off: nat | off < s'.next && input[off].Event? ensures Located(s', off) {
      if off < s.next && Queued(s.chans, off) {
        StillQueued(s.chans, s'.chans, off);
      }
      if l.Accept? && off == s.next && !s'.loop.Blocked? {
        var q := s'.queues[input[off].key];
        assert InQueue(s'.chans, q, |s'.chans[q].items| - 1, off);
      }
      if l.ResumePut? && s.loop.off == off {
        var q := s.loop.target;
        assert InQueue(s'.chans, q, |s'.chans[q].items| - 1, off);
      }
    }
  }

  // ----- the dispatch log

  ghost predicate TakenAt(chans: seq<Channel>, q: nat, i: nat, off: nat) {
    InQueue(chans, q, i, off) && i < chans[q].head
  }

  ghost predicate Taken(chans: seq<Channel>, off: nat) {
    exists q: nat, i: nat :: TakenAt(chans, q, i, off)
  }

  /** The log holds exactly the taken payloads, each conversation's in input order. */
  ghost predicate LogOk(input: seq<Record>, s: State) {
    && (forall off: nat :: off in s.dispatched <==> Taken(s.chans, off))
    && (forall a, b, k | && 0 <= a < b < |s.dispatched|
                         && KeyOf(input, s.dispatched[a], k) && KeyOf(input, s.dispatched[b], k) ::
          s.dispatched[a] < s.dispatched[b])
  }

  /** Taking a payload logs it; it is later than all the conversation's payloads logged before. */
  lemma LogTake(input: seq<Record>, s: State, q: nat)
    requires MapsOk(s) && Channels(s.chans) && OrderOk(input, s) && LogOk(input, s)
    requires Enabled(input, s, Take(q)) && s.chans[q].items[s.chans[q].head].Payload?
    ensures LogOk(input, TakeNext(s, q))
  {
    var s' := TakeNext(s, q);
    var head := s.chans[q].head;
    var off := s.chans[q].items[head].off;
    forall d: nat ensures d in s'.dispatched <==> Taken(s'.chans, d) {
      TakenAfterTake(s, q, d);
    }
    forall a, k | 0 <= a < |s.dispatched| && KeyOf(input, s.dispatched[a], k) && KeyOf(input, off, k)
      ensures s.dispatched[a] < off
    {
      assert s.dispatched[a] in s.dispatched;
      var p: nat, i: nat :| TakenAt(s.chans, p, i, s.dispatched[a]);
      assert Has(s.chans[p], i, s.dispatched[a]) && Has(s.chans[q], head, off);
      assert s.chans[p].key == k == s.chans[q].key;
      assert Increasing(s.chans[q]);
      if p < q { assert AllBelow(s.chans[p], s.chans[q]); }
    }
  }

  lemma TakenAfterTake(s: State, q: nat, d: nat)
    requires Channels(s.chans) && AtWorker(s, q) && Depth(s.chans[q]) > 0 && s.chans[q].items[s.chans[q].head].Payload?
    ensures Taken(TakeNext(s, q).chans, d) <==> Taken(s.chans, d) || s.chans[q].items[s.chans[q].head] == Payload(d)
  {
    var chans' := TakeNext(s, q).chans;
    assert ChannelOk(s.chans[q]);
    if Taken(chans', d) {
      var p: nat, i: nat :| TakenAt(chans', p, i, d);
      if !(p == q && i == s.chans[q].head) { assert TakenAt(s.chans, p, i, d); }
    }
    if Taken(s.chans, d) {
      var p: nat, i: nat :| TakenAt(s.chans, p, i, d);
      assert TakenAt(chans', p, i, d);
    }
    if s.chans[q].items[s.chans[q].head] == Payload(d) {
      assert TakenAt(chans', q, s.chans[q].head, d);
    }
  }

  /** No other step moves a cursor past a payload. */
  ghost predicate SameTaken(chans: seq<Channel>, chans': seq<Channel>) {
    && Grows(chans, chans')
    && (forall q | 0 <= q < |chans| :: chans[q].head <= chans'[q].head && chans[q].head <= |chans[q].items|)
    && (forall q, i: int, d: nat | 0 <= q < |chans'| && Has(chans'[q], i, d) && i < chans'[q].head ::
          q < |chans| && i < chans[q].head)
  }

  lemma LogSame(input: seq<Record>, s: State, s': State)
    requires LogOk(input, s) && SameTaken(s.chans, s'.chans) && s'.dispatched == s.dispatched
    ensures LogOk(input, s')
  {
    forall d: nat ensures Taken(s'.chans, d) <==> Taken(s.chans, d) {
      if Taken(s'.chans, d) {
        var q: nat, i: nat :| TakenAt(s'.chans, q, i, d);
        assert Has(s'.chans[q], i, d);
        assert TakenAt(s.chans, q, i, d);
      }
      if Taken(s.chans, d) {
        var q: nat, i: nat :| TakenAt(s.chans, q, i, d);
        assert TakenAt(s'.chans, q, i, d);
      }
    }
  }

  lemma LogStep(input: seq<Record>, s: State, l: Label)
    requires MapsOk(s) && Channels(s.chans) && OrderOk(input, s) && LogOk(input, s) && Enabled(input, s, l)
    ensures LogOk(input, Next(input, s, l))
  {
    if l.Take? && s.chans[l.q].items[s.chans[l.q].head].Payload? {
      LogTake(input, s, l.q);
    } else {
      QueuesGrow(input, s, l);
      HeadsKept(input, s, l);
      LogSame(input, s, Next(input, s, l));
    }
  }

  lemma HeadsKept(input: seq<Record>, s: State, l: Label)
    requires Channels(s.chans) && Enabled(input, s, l) && Grows(s.chans, Next(input, s, l).chans)
    requires l.Take? ==> s.chans[l.q].items[s.chans[l.q].head].Sentinel?
    ensures SameTaken(s.chans, Next(input, s, l).chans)
    ensures Next(input, s, l).dispatched == s.dispatched
  {
    if l.Take? {
      assert forall q | 0 <= q < |s.chans| :: ChannelOk(s.chans[q]);
    } else {
      HeadsUnmoved(input, s, l);
      NothingTaken(s.chans, Next(input, s, l).chans);
    }
  }

  lemma NothingTaken(chans: seq<Channel>, chans': seq<Channel>)
    requires Channels(chans) && Grows(chans, chans')
    requires forall q | 0 <= q < |chans'| :: chans'[q].head == if q < |chans| then chans[q].head else 0
    ensures SameTaken(chans, chans')
  {
    assert forall q | 0 <= q < |chans| :: ChannelOk(chans[q]);
  }

  lemma HeadsUnmoved(input: seq<Record>, s: State, l: Label)
    requires Enabled(input, s, l) && !l.Take?
    ensures var chans' := Next(input, s, l).chans;
            && |s.chans| <= |chans'|
            && forall q | 0 <= q < |chans'| :: chans'[q].head == if q < |s.chans| then s.chans[q].head else 0
    ensures Next(input, s, l).dispatched == s.dispatched
  {
  }

  // ----- all of it, over every run

  ghost predicate Inv(input: seq<Record>, s: State) {
    && MapsOk(s) && PermitsOk(s) && Channels(s.chans) && LoopOk(s)
    && OrderOk(input, s) && PlacesOk(input, s) && LogOk(input, s)
  }

  lemma InvInitial(input: seq<Record>)
    ensures Inv(input, INITIAL)
  {
    assert Holders(INITIAL.chans) == {};
  }

  lemma InvStep(input: seq<Record>, s: State, l: Label)
    requires Inv(input, s) && Enabled(input, s, l)
    ensures Inv(input, Next(input, s, l))
  {
    MapsStep(input, s, l);
    PermitsStep(input, s, l);
    ChannelsStep(input, s, l);
    LoopStep(input, s, l);
    OrderStep(input, s, l);
    PlacesStep(input, s, l);
    LogStep(input, s, l);
  }

  lemma {:induction false} InvRun(input: seq<Record>, s: State, run: seq<Label>, t: State)
    requires Inv(input, s) && Reaches(input, s, run, t)
    ensures Inv(input, t)
    decreases |run|
  {
    if run != [] {
      InvStep(input, s, run[0]);
      InvRun(input, Next(input, s, run[0]), run[1..], t);
    }
  }

  lemma InvReachable(input: seq<Record>, s: State)
    requires Reachable(input, s)
    ensures Inv(input, s)
  {
    var run :| Reaches(input, INITIAL, run, s);
    InvInitial(input);
    InvRun(input, INITIAL, run, s);
  }
}
