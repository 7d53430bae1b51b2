/** Which step loses a payload, and that it happens. */
module DispatcherLosses {
  import opened Dispatcher
  import opened DispatcherInvariants
  import opened DispatcherTheorems
  import opened DispatcherDeadlock

  predicate HoldsSentinel(c: Channel) { Sentinel in c.items }

  lemma SentinelSomewhere(c: Channel)
    ensures HoldsSentinel(c) <==> SentinelBefore(c, |c.items|)
  {
  }

  /** The record just read goes to a queue that already holds a sentinel. */
  predicate AcceptsBehind(input: seq<Record>, s: State, off: nat) {
    && off == s.next < |input| && input[off].Event? && input[off].key in s.queues
    && s.queues[input[off].key] < |s.chans| && HoldsSentinel(s.chans[s.queues[input[off].key]])
  }

  /** The step is the return of this worker's chat_end handler, with room for the sentinel. */
  predicate EndsQueue(input: seq<Record>, s: State, l: Label, q: nat) {
    && l == Finish(q, true) && q < |s.chans| && !Full(s.chans[q])
    && s.chans[q].worker.Handling? && s.chans[q].worker.off < |input|
    && input[s.chans[q].worker.off].Event? && input[s.chans[q].worker.off].kind.ChatEnd?
  }

  /** The step that loses this payload. */
  predicate Loses(input: seq<Record>, s: State, l: Label, off: nat) {
    || (l.Accept? && AcceptsBehind(input, s, off))
    || (s.loop.Blocked? && s.loop.off == off && (l.StopCancel? || EndsQueue(input, s, l, s.loop.target)))
  }

  lemma LosesAccept(input: seq<Record>, s: State, off: nat)
    requires MapsOk(s) && Enabled(input, s, Accept) && AcceptsBehind(input, s, off)
    ensures Doomed(Next(input, s, Accept), off)
  {
    var q := s.queues[input[off].key];
    var t := Next(input, s, Accept);
    SentinelSomewhere(s.chans[q]);
    SentinelStays(s.chans, t.chans, q, |s.chans[q].items|) by { QueuesGrow(input, s, Accept); }
    if !Full(s.chans[q]) { assert InQueue(t.chans, q, |s.chans[q].items|, off); }
  }

  lemma LosesFinish(input: seq<Record>, s: State, l: Label)
    requires MapsOk(s) && Enabled(input, s, l) && s.loop.Blocked? && EndsQueue(input, s, l, s.loop.target)
    ensures Doomed(Next(input, s, l), s.loop.off)
  {
    var q := s.loop.target;
    var t := Next(input, s, l);
    assert t.chans[q].items == s.chans[q].items + [Sentinel];
    assert t.chans[q].items[|s.chans[q].items|].Sentinel?;
    assert SentinelBefore(t.chans[q], |t.chans[q].items|);
  }

  lemma LosesStep(input: seq<Record>, s: State, l: Label, off: nat)
    requires MapsOk(s) && Enabled(input, s, l) && Loses(input, s, l, off)
    ensures Doomed(Next(input, s, l), off)
  {
    if l.Accept? { LosesAccept(input, s, off); } else if l.Finish? { LosesFinish(input, s, l); }
  }

  // ----- no other step does

  /** A payload that is behind a sentinel where it already was is doomed already. */
  lemma StillBehind(s: State, chans': seq<Channel>, q: nat, i: nat, off: nat)
    requires Grows(s.chans, chans') && InQueue(chans', q, i, off) && SentinelBefore(chans'[q], i)
    requires q < |s.chans| && i < |s.chans[q].items|
    ensures Doomed(s, off)
  {
    var j :| 0 <= j < i && j < |chans'[q].items| && chans'[q].items[j].Sentinel?;
    assert s.chans[q].items[j].Sentinel? && InQueue(s.chans, q, i, off);
  }

  lemma OnlyAccept(input: seq<Record>, s: State, off: nat)
    requires MapsOk(s) && Enabled(input, s, Accept) && !Doomed(s, off) && Doomed(Next(input, s, Accept), off)
    ensures AcceptsBehind(input, s, off)
  {
    var t := Next(input, s, Accept);
    QueuesGrow(input, s, Accept);
    var key := input[s.next].key;
    if key in s.queues { SentinelSomewhere(s.chans[s.queues[key]]); }
    if q: nat, i: nat :| InQueue(t.chans, q, i, off) && SentinelBefore(t.chans[q], i) {
      if q < |s.chans| && i < |s.chans[q].items| { StillBehind(s, t.chans, q, i, off); }
    }
  }

  /** A worker that finishes puts at most a sentinel, into its own queue. */
  lemma FinishPuts(input: seq<Record>, s: State, p: nat, ok: bool)
    requires MapsOk(s) && Enabled(input, s, Finish(p, ok))
    ensures var t := FinishHandler(input, s, p, ok);
            && t.loop == s.loop && |t.chans| == |s.chans|
            && forall q | 0 <= q < |s.chans| ::
                 t.chans[q].items ==
                 s.chans[q].items + if q == p && EndsQueue(input, s, Finish(p, ok), p) then [Sentinel] else []
  {
  }

  lemma OnlyFinish(input: seq<Record>, s: State, p: nat, ok: bool, off: nat)
    requires MapsOk(s) && Enabled(input, s, Finish(p, ok))
    requires !Doomed(s, off) && Doomed(Next(input, s, Finish(p, ok)), off)
    ensures s.loop.Blocked? && s.loop.off == off && EndsQueue(input, s, Finish(p, ok), s.loop.target)
  {
    var t := FinishHandler(input, s, p, ok);
    FinishGrows(input, s, p, ok);
    FinishPuts(input, s, p, ok);
    if q: nat, i: nat :| InQueue(t.chans, q, i, off) && SentinelBefore(t.chans[q], i) {
      StillBehind(s, t.chans, q, i, off);
    }
  }

  lemma OnlyPut(input: seq<Record>, s: State, off: nat)
    requires Enabled(input, s, ResumePut) && Doomed(Next(input, s, ResumePut), off)
    ensures Doomed(s, off)
  {
    var t := Next(input, s, ResumePut);
    QueuesGrow(input, s, ResumePut);
    if q: nat, i: nat :| InQueue(t.chans, q, i, off) && SentinelBefore(t.chans[q], i) {
      if i < |s.chans[q].items| { StillBehind(s, t.chans, q, i, off); }
    }
  }

  lemma OnlyStopPut(input: seq<Record>, s: State, off: nat)
    requires LoopOk(s) && Enabled(input, s, StopPut) && Doomed(Next(input, s, StopPut), off)
    ensures Doomed(s, off)
  {
    var t := Next(input, s, StopPut);
    QueuesGrow(input, s, StopPut);
    if q: nat, i: nat :| InQueue(t.chans, q, i, off) && SentinelBefore(t.chans[q], i) {
      StillBehind(s, t.chans, q, i, off);
    }
  }

  lemma OnlySameItems(input: seq<Record>, s: State, l: Label, off: nat)
    requires Enabled(input, s, l) && !Doomed(s, off) && Doomed(Next(input, s, l), off)
    requires l.Skip? || l.Acquire? || l.Take? || l.StopCancel? || l.StopSnapshot?
    ensures l.StopCancel? && s.loop.Blocked? && s.loop.off == off
  {
    var t := Next(input, s, l);
    QueuesGrow(input, s, l);
    assert |t.chans| == |s.chans| && forall q | 0 <= q < |s.chans| :: t.chans[q].items == s.chans[q].items;
    if q: nat, i: nat :| InQueue(t.chans, q, i, off) && SentinelBefore(t.chans[q], i) {
      StillBehind(s, t.chans, q, i, off);
    } else if t.loop.Blocked? && t.loop.off == off && t.loop.target < |s.chans| {
      SentinelSomewhere(s.chans[t.loop.target]);
      SentinelSomewhere(t.chans[t.loop.target]);
    }
  }

  /** A payload is lost in exactly three ways: it is accepted while its conversation's queue already
      holds a sentinel; or the loop is blocked with it, and the handler of the chat_end of that queue
      returns with room for its sentinel; or the loop is blocked with it and cancelled. */
  lemma LossArises(input: seq<Record>, s: State, l: Label, off: nat)
    requires Reachable(input, s) && Enabled(input, s, l) && !Doomed(s, off)
    ensures Doomed(Next(input, s, l), off) <==> Loses(input, s, l, off)
  {
    InvReachable(input, s);
    if Loses(input, s, l, off) { LosesStep(input, s, l, off); }
    if Doomed(Next(input, s, l), off) {
      match l
      case Accept => OnlyAccept(input, s, off);
      case ResumePut => OnlyPut(input, s, off);
      case Finish(p, ok) => OnlyFinish(input, s, p, ok, off);
      case StopPut => OnlyStopPut(input, s, off);
      case ResumeSentinel(p) => SentinelPutNeverResumes(input, s, p);
      case _ => OnlySameItems(input, s, l, off);
    }
  }

  /** It does happen: a chat_end and one later record of its conversation. */
  lemma LossHappens(input: seq<Record>, key: string) returns (s: State)
    requires EndThen(input, key, 1)
    ensures Reachable(input, s) && Doomed(s, 1)
  {
    ReachHandled(input, key, 0);
    var h := Handled(key, 0);
    ReachableNext(input, h, Finish(0, true));
    var t := Next(input, h, Finish(0, true));
    assert t.chans[0].items == Payloads(1) + [Sentinel];
    ReachableNext(input, t, Accept);
    s := Next(input, t, Accept);
    assert Sentinel in t.chans[0].items;
    LosesAccept(input, t, 1) by { InvReachable(input, t); }
  }
}
