/** That the permits can run out: a worker starved by workers with nothing to do. */
module DispatcherStarvation {
  import opened Dispatcher
  import opened DispatcherInvariants
  import opened DispatcherTheorems
  import opened DispatcherDeadlock

  /** The first n records are events of n conversations. */
  predicate Apart(input: seq<Record>, n: nat) {
    && n <= |input| && (forall i | 0 <= i < n :: input[i].Event?)
    && (forall i, j | 0 <= i < j < n :: input[i].key != input[j].key)
  }

  function Index(input: seq<Record>, n: nat): map<string, nat>
    requires Apart(input, n)
  {
    if n == 0 then map[] else Index(input, n - 1)[input[n - 1].key := n - 1]
  }

  lemma {:induction false} IndexKeys(input: seq<Record>, n: nat, k: string)
    requires Apart(input, n)
    ensures k in Index(input, n) ==> exists i :: 0 <= i < n && input[i].key == k
    decreases n
  {
    if n > 0 && k in Index(input, n) && k != input[n - 1].key {
      IndexKeys(input, n - 1, k);
      var i :| 0 <= i < n - 1 && input[i].key == k;
    }
  }

  function Done(input: seq<Record>, q: nat): Channel
    requires q < |input| && input[q].Event?
  {
    Channel(input[q].key, [Payload(q)], 1, WaitItem)
  }

  function DoneChannels(input: seq<Record>, n: nat): seq<Channel>
    requires Apart(input, n)
  {
    seq(n, q requires 0 <= q < n => Done(input, q))
  }

  /** n conversations have been served, and their workers wait for more. */
  function Served(input: seq<Record>, n: nat): State
    requires Apart(input, n) && n <= MAX_CONCURRENT_CONVS
  {
    State(n, Idle, DoneChannels(input, n), Index(input, n), Index(input, n), MAX_CONCURRENT_CONVS - n,
          seq(n, q requires 0 <= q < n => q), Running)
  }

  /** One more conversation, and where its worker is. */
  function OneMore(input: seq<Record>, n: nat, head: nat, w: Worker, permits: nat, dispatched: seq<nat>): State
    requires Apart(input, n + 1)
  {
    State(n + 1, Idle, DoneChannels(input, n) + [Channel(input[n].key, [Payload(n)], head, w)],
          Index(input, n + 1), Index(input, n + 1), permits, dispatched, Running)
  }

  lemma AcceptNew(input: seq<Record>, n: nat)
    requires Apart(input, n + 1) && n <= MAX_CONCURRENT_CONVS
    ensures Enabled(input, Served(input, n), Accept)
    ensures Next(input, Served(input, n), Accept) ==
            OneMore(input, n, 0, WaitPermit, MAX_CONCURRENT_CONVS - n, Served(input, n).dispatched)
  {
    var s := Served(input, n);
    var key := input[n].key;
    IndexKeys(input, n, key);
    var c := Channel(key, [], 0, WaitPermit);
    assert c.items + [Payload(n)] == [Payload(n)];
    assert (s.chans + [c])[n := c.(items := [Payload(n)])] == s.chans + [c.(items := [Payload(n)])];
  }

  lemma ServeNew(input: seq<Record>, n: nat)
    requires Apart(input, n + 1) && n < MAX_CONCURRENT_CONVS
    requires Reachable(input, OneMore(input, n, 0, WaitPermit, MAX_CONCURRENT_CONVS - n, Served(input, n).dispatched))
    ensures Reachable(input, Served(input, n + 1))
  {
    var log, left := Served(input, n).dispatched, MAX_CONCURRENT_CONVS - n;
    var s1 := OneMore(input, n, 0, WaitPermit, left, log);
    var s2 := OneMore(input, n, 0, WaitItem, left - 1, log);
    var s3 := OneMore(input, n, 1, Handling(n), left - 1, log + [n]);
    ReachableNext(input, s1, Acquire(n));
    assert Next(input, s1, Acquire(n)).chans == s2.chans;
    ReachableNext(input, s2, Take(n));
    assert Next(input, s2, Take(n)).chans == s3.chans;
    ReachableNext(input, s3, Finish(n, false));
    assert Next(input, s3, Finish(n, false)).chans == DoneChannels(input, n + 1);
    assert log + [n] == Served(input, n + 1).dispatched;
  }

  lemma {:induction false} ReachServed(input: seq<Record>, n: nat)
    requires Apart(input, n) && n <= MAX_CONCURRENT_CONVS
    ensures Reachable(input, Served(input, n))
    decreases n
  {
    if n == 0 {
      assert DoneChannels(input, 0) == [] && Served(input, 0).dispatched == [];
      assert Reaches(input, INITIAL, [], Served(input, 0));
    } else {
      ReachServed(input, n - 1);
      AcceptNew(input, n - 1);
      ReachableNext(input, Served(input, n - 1), Accept);
      ServeNew(input, n - 1);
    }
  }

  function Starving(input: seq<Record>): State
    requires Apart(input, MAX_CONCURRENT_CONVS + 1)
  {
    OneMore(input, MAX_CONCURRENT_CONVS, 0, WaitPermit, 0, Served(input, MAX_CONCURRENT_CONVS).dispatched)
  }

  lemma StarvingChannels(input: seq<Record>, q: nat)
    requires Apart(input, MAX_CONCURRENT_CONVS + 1) && q <= MAX_CONCURRENT_CONVS
    ensures |Starving(input).chans| == MAX_CONCURRENT_CONVS + 1
    ensures q < MAX_CONCURRENT_CONVS ==> IdleWorker(Starving(input), q)
    ensures q == MAX_CONCURRENT_CONVS ==> Starving(input).chans[q] == Channel(input[q].key, [Payload(q)], 0, WaitPermit)
  {
  }

  lemma StarvingIsStarved(input: seq<Record>)
    requires Apart(input, MAX_CONCURRENT_CONVS + 1) && PermitsOk(Starving(input))
    ensures Starved(Starving(input), MAX_CONCURRENT_CONVS)
  {
    var s := Starving(input);
    StarvingChannels(input, MAX_CONCURRENT_CONVS);
    forall h | h in Holders(s.chans) ensures IdleWorker(s, h) {
      StarvingChannels(input, h);
    }
  }

  lemma StarvingIsStuck(input: seq<Record>)
    requires Apart(input, MAX_CONCURRENT_CONVS + 1) && |input| == MAX_CONCURRENT_CONVS + 1
    ensures Stuck(input, Starving(input))
  {
    forall l: Label | !IsStop(l) ensures !Enabled(input, Starving(input), l) {
      StarvingChannels(input, 0);
      if (l.Acquire? || l.Take? || l.Finish? || l.ResumeSentinel?) && l.q <= MAX_CONCURRENT_CONVS {
        StarvingChannels(input, l.q);
      }
    }
  }

  /** It does happen: when 10,000 conversations have been served and not ended, the next one's worker
      waits for a permit that none of the idle ones gives back; and without further input nothing
      moves any more, with its payload pending. */
  lemma StarvedHappens(input: seq<Record>) returns (s: State)
    requires Apart(input, 10_001)
    ensures Reachable(input, s) && Starved(s, 10_000) && Pending(s, 10_000)
    ensures |input| == 10_001 ==> Stuck(input, s)
  {
    var n := MAX_CONCURRENT_CONVS;
    s := Starving(input);
    ReachServed(input, n);
    AcceptNew(input, n);
    ReachableNext(input, Served(input, n), Accept);
    StarvingIsStarved(input) by { InvReachable(input, s); }
    if |input| == n + 1 { StarvingIsStuck(input); }
    StarvingChannels(input, n);
    assert InQueue(s.chans, n, 0, n) && !SentinelBefore(s.chans[n], 0);
  }
}
