/** What the dispatcher guarantees over every run, and where it stops. */
module DispatcherTheorems {
  import opened Options
  import opened Dispatcher
  import opened DispatcherInvariants

  // ----- one worker for a conversation, first in first out

  /** At most one live worker for a conversation; the dictionaries list exactly the live ones. */
  lemma OneWorker(input: seq<Record>, s: State)
    requires Reachable(input, s)
    ensures forall p, q | 0 <= p < |s.chans| && 0 <= q < |s.chans| && s.chans[p].key == s.chans[q].key
                          && Live(s.chans[p]) && Live(s.chans[q]) :: p == q
    ensures s.queues == s.workers
    ensures forall k: string, q: nat :: (k in s.queues && s.queues[k] == q) <==>
                                        (q < |s.chans| && s.chans[q].key == k && Live(s.chans[q]))
  {
    InvReachable(input, s);
  }

  /** Of each conversation, the dispatch log is a strictly increasing list of accepted payloads:
      in order, and none twice. */
  lemma FifoPerConversation(input: seq<Record>, s: State)
    requires Reachable(input, s)
    ensures s.next <= |input|
    ensures forall off | off in s.dispatched :: off < s.next && input[off].Event?
    ensures forall a, b, k | && 0 <= a < b < |s.dispatched|
                             && KeyOf(input, s.dispatched[a], k) && KeyOf(input, s.dispatched[b], k) ::
              s.dispatched[a] < s.dispatched[b]
  {
    InvReachable(input, s);
    forall off | off in s.dispatched ensures off < s.next && input[off].Event? {
      var q: nat, i: nat :| TakenAt(s.chans, q, i, off);
      assert Has(s.chans[q], i, off);
    }
  }

  // ----- where every accepted payload is

  ghost predicate SentinelBefore(c: Channel, i: int) {
    exists j :: 0 <= j < i && j < |c.items| && c.items[j].Sentinel?
  }

  /** In line for a worker that will still reach it. */
  ghost predicate Pending(s: State, off: nat) {
    || (exists q: nat, i: nat :: InQueue(s.chans, q, i, off) && s.chans[q].head <= i && !SentinelBefore(s.chans[q], i))
    || (s.loop.Blocked? && s.loop.off == off && s.loop.target < |s.chans|
        && !SentinelBefore(s.chans[s.loop.target], |s.chans[s.loop.target].items|))
  }

  /** Behind a sentinel, about to be put behind one, or dropped when the loop was cancelled. */
  ghost predicate Doomed(s: State, off: nat) {
    || (exists q: nat, i: nat :: InQueue(s.chans, q, i, off) && SentinelBefore(s.chans[q], i))
    || (s.loop.Blocked? && s.loop.off == off && s.loop.target < |s.chans|
        && SentinelBefore(s.chans[s.loop.target], |s.chans[s.loop.target].items|))
    || s.loop == Cancelled(Some(off))
  }

  lemma OnePlace(input: seq<Record>, s: State, p: nat, i: nat, q: nat, j: nat, off: nat)
    requires OrderOk(input, s) && InQueue(s.chans, p, i, off) && InQueue(s.chans, q, j, off)
    ensures p == q && i == j && Held(s) != Some(off)
  {
    assert Has(s.chans[p], i, off) && Has(s.chans[q], j, off);
    assert KeyOf(input, off, s.chans[p].key) && KeyOf(input, off, s.chans[q].key);
    assert p < q ==> AllBelow(s.chans[p], s.chans[q]);
    assert q < p ==> AllBelow(s.chans[q], s.chans[p]);
    assert Increasing(s.chans[p]);
  }

  /** A payload has been dispatched exactly when it lies before its queue's cursor. */
  lemma DispatchedAt(input: seq<Record>, s: State, q: nat, i: nat, off: nat)
    requires Inv(input, s) && InQueue(s.chans, q, i, off)
    ensures off in s.dispatched <==> i < s.chans[q].head
    ensures i < s.chans[q].head ==> !SentinelBefore(s.chans[q], i)
  {
    assert ChannelOk(s.chans[q]);
    if i < s.chans[q].head { assert TakenAt(s.chans, q, i, off); }
    if off in s.dispatched {
      var p: nat, j: nat :| TakenAt(s.chans, p, j, off);
      OnePlace(input, s, p, j, q, i, off);
    }
  }

  lemma TakenIsQueued(chans: seq<Channel>, off: nat)
    ensures Taken(chans, off) ==> Queued(chans, off)
  {
    if q: nat, i: nat :| TakenAt(chans, q, i, off) {
      assert InQueue(chans, q, i, off);
    }
  }

  /** Every accepted payload is dispatched, pending or doomed, and only one of these. */
  lemma Conservation(input: seq<Record>, s: State, off: nat)
    requires Reachable(input, s) && off < s.next && s.next <= |input| && input[off].Event?
    ensures off in s.dispatched || Pending(s, off) || Doomed(s, off)
    ensures !(off in s.dispatched && Pending(s, off))
    ensures !(off in s.dispatched && Doomed(s, off))
    ensures !(Pending(s, off) && Doomed(s, off))
  {
    InvReachable(input, s);
    assert Located(s, off);
    if Queued(s.chans, off) {
      var q: nat, i: nat :| InQueue(s.chans, q, i, off);
      DispatchedAt(input, s, q, i, off);
      forall p: nat, j: nat | InQueue(s.chans, p, j, off) ensures p == q && j == i && Held(s) != Some(off) {
        OnePlace(input, s, p, j, q, i, off);
      }
    } else {
      TakenIsQueued(s.chans, off);
    }
  }

  lemma DoomedStep(input: seq<Record>, s: State, l: Label, off: nat)
    requires Doomed(s, off) && Enabled(input, s, l)
    ensures Doomed(Next(input, s, l), off)
  {
    QueuesGrow(input, s, l);
    if q: nat, i: nat :| InQueue(s.chans, q, i, off) && SentinelBefore(s.chans[q], i) {
      DoomedInQueue(s.chans, Next(input, s, l), q, i, off);
    } else if s.loop.Blocked? {
      DoomedPut(input, s, l);
    }
  }

  lemma DoomedInQueue(chans: seq<Channel>, t: State, q: nat, i: nat, off: nat)
    requires InQueue(chans, q, i, off) && SentinelBefore(chans[q], i) && Grows(chans, t.chans)
    ensures Doomed(t, off)
  {
    SentinelStays(chans, t.chans, q, i);
    assert InQueue(t.chans, q, i, off);
  }

  lemma DoomedPut(input: seq<Record>, s: State, l: Label)
    requires Enabled(input, s, l) && Grows(s.chans, Next(input, s, l).chans)
    requires s.loop.Blocked? && s.loop.target < |s.chans|
    requires SentinelBefore(s.chans[s.loop.target], |s.chans[s.loop.target].items|)
    ensures Doomed(Next(input, s, l), s.loop.off)
  {
    var q := s.loop.target;
    var n := |s.chans[q].items|;
    SentinelStays(s.chans, Next(input, s, l).chans, q, n);
    if l.ResumePut? { assert InQueue(Next(input, s, l).chans, q, n, s.loop.off); }
  }

  lemma SentinelStays(chans: seq<Channel>, chans': seq<Channel>, q: nat, i: int)
    requires Grows(chans, chans') && q < |chans| && SentinelBefore(chans[q], i)
    ensures SentinelBefore(chans'[q], i) && SentinelBefore(chans'[q], |chans'[q].items|)
  {
    var j :| 0 <= j < i && j < |chans[q].items| && chans[q].items[j].Sentinel?;
    assert chans'[q].items[j].Sentinel?;
  }

  /** A doomed payload is lost: no continuation dispatches it. */
  lemma {:induction false} DoomedForever(input: seq<Record>, s: State, run: seq<Label>, t: State, off: nat)
    requires Inv(input, s) && Doomed(s, off) && Reaches(input, s, run, t)
    ensures Doomed(t, off) && off !in t.dispatched
    decreases |run|
  {
    if run == [] {
      if off in t.dispatched {
        var q: nat, i: nat :| TakenAt(s.chans, q, i, off);
        DispatchedAt(input, s, q, i, off);
        forall p: nat, j: nat | InQueue(s.chans, p, j, off) ensures p == q && j == i && Held(s) != Some(off) {
          OnePlace(input, s, p, j, q, i, off);
        }
      }
    } else {
      InvStep(input, s, run[0]);
      DoomedStep(input, s, run[0], off);
      DoomedForever(input, Next(input, s, run[0]), run[1..], t, off);
    }
  }

  // ----- exit and drain

  /** When a worker takes its sentinel, all ahead of it has been dispatched, both map entries and
      the permit are given back, and the payloads of its queue that are lost are those behind. */
  lemma ExitDrains(input: seq<Record>, s: State, q: nat)
    requires Inv(input, s) && Enabled(input, s, Take(q)) && s.chans[q].items[s.chans[q].head].Sentinel?
    ensures var t := Next(input, s, Take(q));
            var c := t.chans[q];
            && c.worker.Exited? && c.key !in t.queues && c.key !in t.workers && t.permits == s.permits + 1
            && (forall i: nat, off: nat | InQueue(t.chans, q, i, off) ::
                  (off in t.dispatched <==> i < c.head - 1) && (Doomed(t, off) <==> c.head <= i))
  {
    var t := Next(input, s, Take(q));
    InvStep(input, s, Take(q));
    var c := t.chans[q];
    forall i: nat, off: nat | InQueue(t.chans, q, i, off)
      ensures (off in t.dispatched <==> i < c.head - 1) && (Doomed(t, off) <==> c.head <= i)
    {
      ExitedAt(input, t, q, i, off);
    }
  }

  lemma ExitedAt(input: seq<Record>, t: State, q: nat, i: nat, off: nat)
    requires Inv(input, t) && InQueue(t.chans, q, i, off) && t.chans[q].worker.Exited?
    ensures off in t.dispatched <==> i < t.chans[q].head - 1
    ensures Doomed(t, off) <==> t.chans[q].head <= i
  {
    var c := t.chans[q];
    assert ChannelOk(c);
    DispatchedAt(input, t, q, i, off);
    assert c.head <= i ==> SentinelBefore(c, i) by { assert c.items[c.head - 1].Sentinel?; }
    forall p: nat, j: nat | InQueue(t.chans, p, j, off) ensures p == q && j == i && Held(t) != Some(off) {
      OnePlace(input, t, p, j, q, i, off);
    }
  }

  ghost predicate Arrives(input: seq<Record>, s: State, l: Label, key: string) {
    l.Accept? && s.next < |input| && KeyOf(input, s.next, key)
  }

  /** Nothing is accepted for the conversation along the run. */
  ghost predicate Quiet(input: seq<Record>, s: State, run: seq<Label>, key: string)
    decreases |run|
  {
    run == [] || (Enabled(input, s, run[0]) && !Arrives(input, s, run[0], key)
                  && Quiet(input, Next(input, s, run[0]), run[1..], key))
  }

  /** Channel q has changed only by its worker's steps and by sentinels. */
  ghost predicate NoNewPayload(s: State, t: State, q: nat) {
    && q < |s.chans| && q < |t.chans| && t.chans[q].key == s.chans[q].key && Latest(t.chans, q)
    && !(t.loop.Blocked? && t.loop.target == q)
    && s.chans[q].head <= t.chans[q].head
    && (forall i: nat, off: nat | Has(t.chans[q], i, off) :: Has(s.chans[q], i, off))
  }

  lemma QuietAccept(input: seq<Record>, s: State, q: nat)
    requires MapsOk(s) && Enabled(input, s, Accept) && q < |s.chans| && !Arrives(input, s, Accept, s.chans[q].key)
    requires Latest(s.chans, q)
    ensures NoNewPayload(s, AcceptNext(s, input[s.next].key), q)
  {
    var t := AcceptNext(s, input[s.next].key);
    assert t.chans[q] == s.chans[q];
  }

  lemma QuietFinish(input: seq<Record>, s: State, p: nat, ok: bool, q: nat)
    requires MapsOk(s) && Enabled(input, s, Finish(p, ok)) && q < |s.chans|
    requires !(s.loop.Blocked? && s.loop.target == q) && Latest(s.chans, q)
    ensures NoNewPayload(s, FinishHandler(input, s, p, ok), q)
  {
    var t := FinishHandler(input, s, p, ok);
    assert forall r | 0 <= r < |s.chans| :: t.chans[r].key == s.chans[r].key;
  }

  lemma QuietPut(input: seq<Record>, s: State, l: Label, q: nat)
    requires MapsOk(s) && Enabled(input, s, l) && q < |s.chans| && (l.ResumePut? || l.ResumeSentinel? || l.StopPut?)
    requires !(s.loop.Blocked? && s.loop.target == q) && Latest(s.chans, q)
    ensures NoNewPayload(s, Next(input, s, l), q)
  {
    match l
    case ResumePut => QuietAppend(s, s.loop.target, Payload(s.loop.off), q);
    case ResumeSentinel(p) => QuietAppend(s, p, Sentinel, q);
    case StopPut => QuietAppend(s, s.stop.todo[0], Sentinel, q);
  }

  lemma QuietSameItems(input: seq<Record>, s: State, l: Label, q: nat)
    requires Enabled(input, s, l) && q < |s.chans|
    requires (l.Skip? || l.Acquire? || l.Take? || l.StopCancel? || l.StopSnapshot?)
    requires !(s.loop.Blocked? && s.loop.target == q) && Latest(s.chans, q)
    ensures NoNewPayload(s, Next(input, s, l), q)
  {
    var t := Next(input, s, l);
    assert forall r | 0 <= r < |s.chans| :: t.chans[r].items == s.chans[r].items && t.chans[r].key == s.chans[r].key;
  }

  lemma QuietStep(input: seq<Record>, s: State, l: Label, q: nat)
    requires MapsOk(s) && Enabled(input, s, l) && q < |s.chans| && !Arrives(input, s, l, s.chans[q].key)
    requires !(s.loop.Blocked? && s.loop.target == q) && Latest(s.chans, q)
    ensures NoNewPayload(s, Next(input, s, l), q)
  {
    if l.Accept? {
      QuietAccept(input, s, q);
    } else if l.Finish? {
      QuietFinish(input, s, l.q, l.ok, q);
    } else if l.ResumePut? || l.ResumeSentinel? || l.StopPut? {
      QuietPut(input, s, l, q);
    } else {
      QuietSameItems(input, s, l, q);
    }
  }

  lemma QuietAppend(s: State, p: nat, item: Item, q: nat)
    requires q < |s.chans| && p < |s.chans| && Latest(s.chans, q) && (p == q ==> item.Sentinel?)
    ensures var t := Append(s, p, item);
            && Latest(t.chans, q) && t.chans[q].key == s.chans[q].key && t.chans[q].head == s.chans[q].head
            && (forall i: nat, off: nat | Has(t.chans[q], i, off) :: Has(s.chans[q], i, off))
  {
    assert forall r | 0 <= r < |s.chans| :: Append(s, p, item).chans[r].key == s.chans[r].key;
  }

  lemma {:induction false} QuietRun(input: seq<Record>, s: State, run: seq<Label>, t: State, q: nat)
    requires Inv(input, s) && Reaches(input, s, run, t) && q < |s.chans| && Quiet(input, s, run, s.chans[q].key)
    requires !(s.loop.Blocked? && s.loop.target == q) && Latest(s.chans, q)
    ensures NoNewPayload(s, t, q)
    decreases |run|
  {
    if run != [] {
      InvStep(input, s, run[0]);
      QuietStep(input, s, run[0], q);
      QuietRun(input, Next(input, s, run[0]), run[1..], t, q);
    }
  }

  /** If a conversation's queue is empty and nothing arrives for it any more, then once its
      worker has exited everything this worker was given has been dispatched, and no trace of
      the conversation is left in the dictionaries. */
  lemma QuietEnd(input: seq<Record>, s: State, run: seq<Label>, t: State, q: nat)
    requires Reachable(input, s) && Reaches(input, s, run, t)
    requires q < |s.chans| && Live(s.chans[q]) && Depth(s.chans[q]) == 0 && !(s.loop.Blocked? && s.loop.target == q)
    requires Quiet(input, s, run, s.chans[q].key) && q < |t.chans| && t.chans[q].worker.Exited?
    ensures forall i: nat, off: nat | InQueue(t.chans, q, i, off) :: off in t.dispatched
    ensures s.chans[q].key !in t.queues && s.chans[q].key !in t.workers
  {
    InvReachable(input, s);
    QuietRun(input, s, run, t, q);
    InvRun(input, s, run, t);
    forall i: nat, off: nat | InQueue(t.chans, q, i, off) ensures off in t.dispatched {
      assert Has(s.chans[q], i, off);
      DispatchedAt(input, t, q, i, off);
    }
  }

  // ----- the bounds, in numbers

  /** At most 100 items wait in a queue and at most 10,000 workers hold a permit, and a waiting worker
      can start exactly when fewer do. */
  lemma Bounds(input: seq<Record>, s: State)
    requires Reachable(input, s)
    ensures forall q | 0 <= q < |s.chans| :: 0 <= |s.chans[q].items| - s.chans[q].head <= 100
    ensures |Holders(s.chans)| <= 10_000
    ensures forall q: nat | q < |s.chans| && s.chans[q].worker.WaitPermit? ::
              Enabled(input, s, Acquire(q)) <==> |Holders(s.chans)| < 10_000
  {
    InvReachable(input, s);
    forall q | 0 <= q < |s.chans| ensures 0 <= |s.chans[q].items| - s.chans[q].head <= 100 {
      assert ChannelOk(s.chans[q]);
    }
  }

  /** A record blocks the loop exactly when its conversation has a queue in which 100 items wait; else it
      is the last of its conversation's queue, a new one if it had none. */
  lemma AcceptBlocks(input: seq<Record>, s: State)
    requires Inv(input, s) && Enabled(input, s, Accept)
    ensures var key, t := input[s.next].key, Next(input, s, Accept);
            && (t.loop.Blocked? <==>
                key in s.queues && |s.chans[s.queues[key]].items| - s.chans[s.queues[key]].head >= 100)
            && t.next == s.next + 1 && key in t.queues
            && (t.loop.Blocked? ==> t.loop == Blocked(s.queues[key], s.next) && t.chans == s.chans)
            && (!t.loop.Blocked? && key in s.queues ==>
                  var c := s.chans[s.queues[key]];
                  t.chans == s.chans[s.queues[key] := c.(items := c.items + [Payload(s.next)])])
            && (key !in s.queues ==> t.chans == s.chans + [Channel(key, [Payload(s.next)], 0, WaitPermit)])
  {
    var key, t := input[s.next].key, Next(input, s, Accept);
    if key !in s.queues {
      var c := Channel(key, [], 0, WaitPermit);
      assert c.items + [Payload(s.next)] == [Payload(s.next)];
      assert t.chans == (s.chans + [c])[|s.chans| := c.(items := c.items + [Payload(s.next)])];
    }
  }

  /** The worker that takes a payload begins on it; the one that takes the sentinel ends, gives back its
      permit and clears its conversation from both dictionaries. */
  lemma TakeDoes(input: seq<Record>, s: State, q: nat)
    requires Inv(input, s) && Enabled(input, s, Take(q))
    ensures var c, t := s.chans[q], Next(input, s, Take(q));
            && |t.chans| == |s.chans| && (forall p | 0 <= p < |s.chans| && p != q :: t.chans[p] == s.chans[p])
            && (t.chans[q].key, t.chans[q].items, t.chans[q].head) == (c.key, c.items, c.head + 1)
            && (if c.items[c.head].Sentinel?
                then t.chans[q].worker == Exited && t.permits == s.permits + 1 && t.dispatched == s.dispatched
                     && t.queues == s.queues - {c.key} && t.workers == s.workers - {c.key}
                else t.chans[q].worker == Handling(c.items[c.head].off) && t.permits == s.permits
                     && t.dispatched == s.dispatched + [c.items[c.head].off]
                     && t.queues == s.queues && t.workers == s.workers)
  {
  }

  /** When a handler ends, its worker goes on; only after a chat_end that returned does it put a sentinel
      at the end of its queue, or wait to put it if 100 items wait there. */
  lemma FinishDoes(input: seq<Record>, s: State, q: nat, ok: bool)
    requires Inv(input, s) && Enabled(input, s, Finish(q, ok))
    ensures var c, t := s.chans[q], Next(input, s, Finish(q, ok));
            var rec := input[c.worker.off];
            var ended := ok && rec.Event? && rec.kind == ChatEnd;
            && t == s.(chans := t.chans) && |t.chans| == |s.chans|
            && (forall p | 0 <= p < |s.chans| && p != q :: t.chans[p] == s.chans[p])
            && (t.chans[q].key, t.chans[q].head) == (c.key, c.head)
            && t.chans[q].items == c.items + (if ended && |c.items| - c.head < 100 then [Sentinel] else [])
            && t.chans[q].worker == if ended && |c.items| - c.head >= 100 then PuttingSentinel(q) else WaitItem
  {
  }

  // ----- inside a handler

  predicate Handles(input: seq<Record>, s: State, q: nat, kind: Kind) {
    q < |s.chans| && s.chans[q].worker.Handling? && s.chans[q].worker.off < |input|
    && input[s.chans[q].worker.off].Event? && input[s.chans[q].worker.off].kind == kind
  }

  /** A handler runs for a record of its worker's own conversation. */
  lemma HandlesOwn(input: seq<Record>, s: State, q: nat, kind: Kind)
    requires Inv(input, s) && Handles(input, s, q, kind)
    ensures s.chans[q].key == input[s.chans[q].worker.off].key
  {
    assert ChannelOk(s.chans[q]);
    assert Has(s.chans[q], s.chans[q].head - 1, s.chans[q].worker.off);
  }

  /** A step that is not its own finish leaves a worker in its handler. */
  lemma StaysHandling(input: seq<Record>, s: State, l: Label, q: nat, kind: Kind)
    requires MapsOk(s) && Enabled(input, s, l) && Handles(input, s, q, kind) && !(l.Finish? && l.q == q)
    ensures Handles(input, Next(input, s, l), q, kind) && Next(input, s, l).chans[q].key == s.chans[q].key
  {
    if l.Finish? {
      assert FinishHandler(input, s, l.q, l.ok).chans[q] == s.chans[q];
    }
  }

  /** Two workers inside handlers of the same conversation are one worker. */
  lemma OneHandler(input: seq<Record>, s: State, p: nat, q: nat, k: Kind, kind: Kind)
    requires MapsOk(s) && Handles(input, s, p, k) && Handles(input, s, q, kind) && s.chans[p].key == s.chans[q].key
    ensures p == q && k == kind
  {
  }
}
