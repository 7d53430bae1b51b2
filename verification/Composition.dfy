/** The dispatcher and the agent router together.  The router's release reads first and commits
    later; the dispatcher, by giving a conversation one worker, makes that as good as atomic. */
module Composition {
  import opened Options
  import D = Dispatcher
  import DI = DispatcherInvariants
  import DT = DispatcherTheorems
  import R = AgentRouting
  import RedisSets

  /** What a release has read and not yet committed. */
  datatype Read = Read(conv: string, agent: string)

  datatype System = System(disp: D.State, store: R.Store, pending: map<nat, Read>)  // by worker

  datatype Label =
    | Dispatch(step: D.Label)
    | RouteBy(q: nat)            // transfer_to_agent's handler calls route_to_agent
    | ReadBy(q: nat)             // chat_end's handler reads the conversation's agent
    | CommitBy(q: nat)           // and later commits the release
    | AbortBy(q: nat)            // or the commit raises
    | Lifecycle(cmd: R.Label)    // agents log in and out, beat and expire, at any time

  const START := System(D.INITIAL, R.EMPTY, map[])

  ghost predicate Enabled(input: seq<D.Record>, s: System, l: Label) {
    match l
    case Dispatch(step) => D.Enabled(input, s.disp, step) && (step.Finish? ==> step.q !in s.pending)
    case RouteBy(q) => DT.Handles(input, s.disp, q, D.Transfer)
    case ReadBy(q) => DT.Handles(input, s.disp, q, D.ChatEnd) && q !in s.pending
    case CommitBy(q) => q in s.pending
    case AbortBy(q) => q in s.pending
    case Lifecycle(cmd) => cmd.GoOnline? || cmd.Heartbeat? || cmd.GoOffline? || cmd.Expire?
  }

  ghost function Next(input: seq<D.Record>, s: System, l: Label): System
    requires Enabled(input, s, l)
  {
    match l
    case Dispatch(step) => s.(disp := D.Next(input, s.disp, step))
    case RouteBy(q) => s.(store := R.Next(s.store, R.Route(s.disp.chans[q].key, "")))
    case ReadBy(q) =>
      var c := s.disp.chans[q].key;
      (match R.Holder(s.store, c)
       case None => s
       case Some(a) => s.(pending := s.pending[q := Read(c, a)]))
    case CommitBy(q) =>
      s.(store := R.Next(s.store, R.Commit(s.pending[q].conv, s.pending[q].agent)), pending := s.pending - {q})
    case AbortBy(q) => s.(pending := s.pending - {q})
    case Lifecycle(cmd) => s.(store := R.Next(s.store, cmd))
  }

  /** The same step with an atomic release: a read that finds no agent, or a commit, is the whole
      release; a read that finds one is nothing. */
  ghost function Atomic(s: System, l: Label): seq<R.Label> {
    match l
    case RouteBy(q) => if q < |s.disp.chans| then [R.Route(s.disp.chans[q].key, "")] else []
    case ReadBy(q) =>
      if q < |s.disp.chans| && R.Holder(s.store, s.disp.chans[q].key).None? then [R.Release(s.disp.chans[q].key)]
      else []
    case CommitBy(q) => if q in s.pending then [R.Release(s.pending[q].conv)] else []
    case Lifecycle(cmd) => [cmd]
    case _ => []
  }

  ghost predicate Reaches(input: seq<D.Record>, s: System, run: seq<Label>, t: System)
    decreases |run|
  {
    if run == [] then s == t
    else Enabled(input, s, run[0]) && Reaches(input, Next(input, s, run[0]), run[1..], t)
  }

  ghost function AtomicRun(input: seq<D.Record>, s: System, run: seq<Label>): seq<R.Label>
    decreases |run|
  {
    if run == [] || !Enabled(input, s, run[0]) then []
    else Atomic(s, run[0]) + AtomicRun(input, Next(input, s, run[0]), run[1..])
  }

  /** An uncommitted read is by a worker that is inside its chat_end handler, for its own
      conversation, and is still true. */
  ghost predicate ReadIsCurrent(input: seq<D.Record>, s: System, q: nat) {
    && q in s.pending && DT.Handles(input, s.disp, q, D.ChatEnd)
    && s.pending[q].conv == s.disp.chans[q].key
    && R.Holder(s.store, s.pending[q].conv) == Some(s.pending[q].agent)
  }

  ghost predicate Inv(input: seq<D.Record>, s: System) {
    DI.Inv(input, s.disp) && forall q | q in s.pending :: ReadIsCurrent(input, s, q)
  }

  /** What a handler does to the router is for the conversation of the record it handles: a transfer routes
      it without a required skill, a chat_end reads its agent, and the commit is on what was read. */
  lemma HandlersAct(input: seq<D.Record>, s: System, l: Label)
    requires Inv(input, s) && Enabled(input, s, l) && (l.RouteBy? || l.ReadBy? || l.CommitBy?)
    ensures var c := input[s.disp.chans[l.q].worker.off].key;
            var t := Next(input, s, l);
            && t.disp == s.disp
            && (l.RouteBy? ==> t.store == R.Next(s.store, R.Route(c, "")) && t.pending == s.pending)
            && (l.ReadBy? ==> t.store == s.store
                              && t.pending == if c in s.store.active && s.store.active[c] != ""
                                              then s.pending[l.q := Read(c, s.store.active[c])] else s.pending)
            && (l.CommitBy? ==> c in s.store.active && t.pending == s.pending - {l.q}
                                && t.store == R.Next(s.store, R.Commit(c, s.store.active[c])))
  {
    if l.CommitBy? { assert ReadIsCurrent(input, s, l.q); }
    DT.HandlesOwn(input, s.disp, l.q, if l.RouteBy? then D.Transfer else D.ChatEnd);
  }

  /** Until its release is committed or has raised, a handler does not end. */
  lemma HandlerWaits(input: seq<D.Record>, s: System, q: nat, ok: bool)
    requires Inv(input, s) && DT.Handles(input, s.disp, q, D.ChatEnd)
    ensures Enabled(input, s, Dispatch(D.Finish(q, ok))) <==> q !in s.pending
  {
  }

  /** A release is read once; committed at once it is the atomic release; raised, it leaves all as it was. */
  lemma ReleaseRuns(input: seq<D.Record>, s: System, q: nat)
    requires DT.Handles(input, s.disp, q, D.ChatEnd) && q !in s.pending
    requires R.Holder(s.store, s.disp.chans[q].key).Some?
    ensures Enabled(input, s, ReadBy(q)) && !Enabled(input, s, CommitBy(q)) && !Enabled(input, s, AbortBy(q))
    ensures var s1 := Next(input, s, ReadBy(q));
            && !Enabled(input, s1, ReadBy(q)) && Enabled(input, s1, CommitBy(q)) && Enabled(input, s1, AbortBy(q))
            && Next(input, s1, CommitBy(q)) == s.(store := R.Next(s.store, R.Release(s.disp.chans[q].key)))
            && Next(input, s1, AbortBy(q)) == s
  {
    var c := s.disp.chans[q].key;
    var s1 := s.(pending := s.pending[q := Read(c, R.Holder(s.store, c).value)]);
    assert Next(input, s, ReadBy(q)) == s1 && s1.pending - {q} == s.pending;
  }

  lemma HolderElsewhere(s: R.Store, cmd: R.Label, c: string)
    requires cmd.Route? || cmd.Commit? ==> cmd.conv != c
    requires !cmd.Release?
    ensures R.Holder(R.Next(s, cmd), c) == R.Holder(s, c)
  {
  }

  lemma ReadStaysCurrent(input: seq<D.Record>, s: System, l: Label, q: nat)
    requires Inv(input, s) && Enabled(input, s, l) && !l.Dispatch? && q in s.pending && q in Next(input, s, l).pending
    ensures ReadIsCurrent(input, Next(input, s, l), q)
  {
    assert ReadIsCurrent(input, s, q);
    var c := s.disp.chans[q].key;
    match l
    case RouteBy(p) =>
      if s.disp.chans[p].key == c { DT.OneHandler(input, s.disp, p, q, D.Transfer, D.ChatEnd); }
      HolderElsewhere(s.store, R.Route(s.disp.chans[p].key, ""), c);
    case CommitBy(p) =>
      assert ReadIsCurrent(input, s, p);
      if s.disp.chans[p].key == c { DT.OneHandler(input, s.disp, p, q, D.ChatEnd, D.ChatEnd); }
      HolderElsewhere(s.store, R.Commit(s.pending[p].conv, s.pending[p].agent), c);
    case Lifecycle(cmd) => HolderElsewhere(s.store, cmd, c);
    case _ =>
  }

  lemma InvStep(input: seq<D.Record>, s: System, l: Label)
    requires Inv(input, s) && Enabled(input, s, l)
    ensures Inv(input, Next(input, s, l))
  {
    var t := Next(input, s, l);
    if l.Dispatch? { DI.InvStep(input, s.disp, l.step); }
    forall q | q in t.pending ensures ReadIsCurrent(input, t, q) {
      if l.Dispatch? {
        assert ReadIsCurrent(input, s, q);
        DT.StaysHandling(input, s.disp, l.step, q, D.ChatEnd);
      } else if q in s.pending {
        ReadStaysCurrent(input, s, l, q);
      }
    }
  }

  /** A command list of none or one. */
  lemma AfterOne(s: R.Store, cmd: R.Label)
    ensures R.After(s, []) == s && R.After(s, [cmd]) == R.Next(s, cmd)
  {
    assert [cmd][1..] == [];
  }

  /** Reading that there is no agent is the whole release; reading that there is one is nothing. */
  lemma AtomicRead(input: seq<D.Record>, s: System, q: nat)
    requires Enabled(input, s, ReadBy(q))
    ensures R.After(s.store, Atomic(s, ReadBy(q))) == Next(input, s, ReadBy(q)).store
  {
    AfterOne(s.store, R.Release(s.disp.chans[q].key));
  }

  /** Committing a current read is the whole release. */
  lemma AtomicCommit(input: seq<D.Record>, s: System, q: nat)
    requires Enabled(input, s, CommitBy(q)) && ReadIsCurrent(input, s, q)
    ensures R.After(s.store, Atomic(s, CommitBy(q))) == Next(input, s, CommitBy(q)).store
  {
    AfterOne(s.store, R.Release(s.pending[q].conv));
  }

  lemma AtomicOther(input: seq<D.Record>, s: System, l: Label)
    requires Enabled(input, s, l) && !l.ReadBy? && !l.CommitBy?
    ensures R.After(s.store, Atomic(s, l)) == Next(input, s, l).store
  {
    if l.RouteBy? { AfterOne(s.store, R.Route(s.disp.chans[l.q].key, "")); }
    if l.Lifecycle? { AfterOne(s.store, l.cmd); }
  }

  lemma NoCommits(input: seq<D.Record>, s: System, l: Label)
    requires Enabled(input, s, l)
    ensures forall i | 0 <= i < |Atomic(s, l)| :: !Atomic(s, l)[i].Commit?
  {
  }

  lemma AtomicStep(input: seq<D.Record>, s: System, l: Label)
    requires Inv(input, s) && Enabled(input, s, l)
    ensures R.After(s.store, Atomic(s, l)) == Next(input, s, l).store
    ensures forall i | 0 <= i < |Atomic(s, l)| :: !Atomic(s, l)[i].Commit?
  {
    NoCommits(input, s, l);
    match l
    case ReadBy(q) => AtomicRead(input, s, q);
    case CommitBy(q) => AtomicCommit(input, s, q);
    case _ => AtomicOther(input, s, l);
  }

  lemma {:induction false} AfterConcat(s: R.Store, run: seq<R.Label>, more: seq<R.Label>)
    ensures R.After(s, run + more) == R.After(R.After(s, run), more)
    decreases |run|
  {
    if run == [] {
      assert run + more == more;
    } else {
      var s1 := R.Next(s, run[0]);
      assert (run + more)[0] == run[0] && (run + more)[1..] == run[1..] + more;
      AfterConcat(s1, run[1..], more);
    }
  }

  /** The two-step release refines the atomic one: over every interleaving of handlers, dispatcher
      steps and agent lifecycle, the router's state is that of the run in which every release is a
      single step, taken where it commits (or where it reads that there is nothing to release). */
  lemma {:induction false} ReleaseRefinesAtomic(input: seq<D.Record>, s: System, run: seq<Label>, t: System)
    requires Inv(input, s) && Reaches(input, s, run, t)
    ensures t.store == R.After(s.store, AtomicRun(input, s, run))
    ensures forall i | 0 <= i < |AtomicRun(input, s, run)| :: !AtomicRun(input, s, run)[i].Commit?
    decreases |run|
  {
    if run != [] {
      var s1 := Next(input, s, run[0]);
      InvStep(input, s, run[0]);
      AtomicStep(input, s, run[0]);
      ReleaseRefinesAtomic(input, s1, run[1..], t);
      AfterConcat(s.store, Atomic(s, run[0]), AtomicRun(input, s1, run[1..]));
    }
  }

  lemma InvStart(input: seq<D.Record>)
    ensures Inv(input, START)
  {
    DI.InvInitial(input);
  }

  // ----- a slot taken is given back at most once

  /** Routes that make a conversation active. */
  ghost function Activations(s: R.Store, run: seq<R.Label>, c: string): nat
    decreases |run|
  {
    if run == [] then 0
    else
      (if run[0].Route? && run[0].conv == c && c !in s.active && R.Choice(s, run[0].skill).Some? then 1 else 0)
      + Activations(R.Next(s, run[0]), run[1..], c)
  }

  /** Releases that decrement a score. */
  ghost function Decrements(s: R.Store, run: seq<R.Label>, c: string): nat
    decreases |run|
  {
    if run == [] then 0
    else
      (if run[0].Release? && run[0].conv == c && R.Holder(s, c).Some? then 1 else 0)
      + Decrements(R.Next(s, run[0]), run[1..], c)
  }

  function ActiveNow(s: R.Store, c: string): nat { if c in s.active then 1 else 0 }

  lemma {:induction false} AtomicBalance(s: R.Store, run: seq<R.Label>, c: string)
    requires forall i | 0 <= i < |run| :: !run[i].Commit?
    ensures ActiveNow(s, c) + Activations(s, run, c) == Decrements(s, run, c) + ActiveNow(R.After(s, run), c)
    decreases |run|
  {
    if run != [] {
      AtomicBalance(R.Next(s, run[0]), run[1..], c);
    }
  }

  /** In every run of the whole system, a conversation's activations are its decrements plus one if
      it is active now: each activating route is undone at most once. */
  lemma EachRouteReleasedAtMostOnce(input: seq<D.Record>, run: seq<Label>, t: System, c: string)
    requires Reaches(input, START, run, t)
    ensures var cmds := AtomicRun(input, START, run);
            Activations(R.EMPTY, cmds, c) == Decrements(R.EMPTY, cmds, c) + ActiveNow(t.store, c)
  {
    InvStart(input);
    ReleaseRefinesAtomic(input, START, run, t);
    AtomicBalance(R.EMPTY, AtomicRun(input, START, run), c);
  }

  /** Slot conservation for the whole system: if no agent that holds chats logs in, out or expires and
      no active conversation is routed again, scores, chat sets and active entries count the same
      chats, and if no login sets a negative limit, these number at most the sum of the limits. */
  lemma SystemSlots(input: seq<D.Record>, run: seq<Label>, t: System)
    requires Reaches(input, START, run, t) && R.Disciplined(R.EMPTY, AtomicRun(input, START, run))
    ensures R.Counted(t.store)
    ensures R.NoNegativeLimit(AtomicRun(input, START, run)) ==>
              |t.store.active| <= R.TotalCapacity(t.store, t.store.pool.Keys)
  {
    InvStart(input);
    ReleaseRefinesAtomic(input, START, run, t);
    R.SlotConservation(AtomicRun(input, START, run));
  }

  /** Without the dispatcher it fails: two releases of one conversation that both read before
      either commits take the score below zero. */
  lemma UnserialisedReleases(a: string, c: string)
    requires a != ""
    ensures var s := R.Assign(R.GoneOnline(R.EMPTY, a, 5, []), a, c);
            && R.Exact(s) && R.Holder(s, c) == Some(a)
            && R.After(s, [R.Commit(c, a), R.Commit(c, a)]).pool == map[a := -1]
            && R.After(s, [R.Release(c), R.Release(c)]).pool == map[a := 0]
  {
    var s0 := R.GoneOnline(R.EMPTY, a, 5, []);
    assert forall b :: RedisSets.Members(s0.chats, b) == R.HeldBy(s0, b);
    R.ExactAssign(s0, a, c);
    TwoCommits(R.Assign(s0, a, c), c, a);
    TwoReleases(R.Assign(s0, a, c), c, a);
  }

  lemma TwoCommits(s: R.Store, c: string, a: string)
    requires s.pool == map[a := 1]
    ensures R.After(s, [R.Commit(c, a), R.Commit(c, a)]).pool == map[a := -1]
  {
    Twice(s, R.Commit(c, a));
  }

  lemma TwoReleases(s: R.Store, c: string, a: string)
    requires s.pool == map[a := 1] && R.Holder(s, c) == Some(a)
    ensures R.After(s, [R.Release(c), R.Release(c)]).pool == map[a := 0]
  {
    Twice(s, R.Release(c));
  }

  lemma Twice(s: R.Store, l: R.Label)
    ensures R.After(s, [l, l]) == R.Next(R.Next(s, l), l)
  {
    assert [l, l][1..] == [l];
    assert R.After(R.Next(s, l), [l]) == R.After(R.Next(R.Next(s, l), l), [l][1..]);
  }
}
