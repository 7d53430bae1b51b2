/** The dispatcher and the online-chat tracker together.  A chat is taken offline by its worker, when
    it ends, and by the gateway, when its socket goes; both read first and remove later. */
module TrackerComposition {
  import D = Dispatcher
  import DI = DispatcherInvariants
  import DT = DispatcherTheorems
  import T = OnlineTracking
  import opened RedisSets

  /** What a removal has read and not yet committed. */
  datatype Read = Read(conv: string, user: string, agent: string)

  datatype System = System(
    disp: D.State,
    store: T.Store,
    pending: map<nat, Read>,      // by worker
    gateway: map<nat, Read>)      // by disconnect

  datatype Label =
    | Dispatch(step: D.Label)
    | OnlineBy(q: nat, user: string, server: string, bot: string, now: int)   // chat_start's handler
    | AssignBy(q: nat, agent: string)                                         // transfer_to_agent's handler
    | MessageBy(q: nat, now: int)          // a message's handler, or what it leaves running when it raises
    | ReadBy(q: nat)                                                          // chat_end's handler reads
    | CommitBy(q: nat)                                                        // and later removes
    | AbortBy(q: nat)                                                         // or raises
    | GatewayRead(g: nat, conv: string)                                       // disconnect reads
    | GatewayCommit(g: nat)                                                   // and later removes
    | GatewayAbort(g: nat)

  const START := System(D.INITIAL, T.EMPTY, map[], map[])

  predicate Enabled(input: seq<D.Record>, s: System, l: Label) {
    match l
    case Dispatch(step) => D.Enabled(input, s.disp, step) && (step.Finish? ==> step.q !in s.pending)
    case OnlineBy(q, _, _, _, _) => DT.Handles(input, s.disp, q, D.OtherEvent)
    case AssignBy(q, _) => DT.Handles(input, s.disp, q, D.Transfer)
    case MessageBy(q, _) => q < |s.disp.chans|
    case ReadBy(q) => DT.Handles(input, s.disp, q, D.ChatEnd) && q !in s.pending
    case CommitBy(q) => q in s.pending
    case AbortBy(q) => q in s.pending
    case GatewayRead(g, _) => g !in s.gateway
    case GatewayCommit(g) => g in s.gateway
    case GatewayAbort(g) => g in s.gateway
  }

  function Found(store: T.Store, c: string): Read
    requires c in store.hashes
  {
    Read(c, T.OrEmpty(store.hashes[c].user), T.OrEmpty(store.hashes[c].agent))
  }

  function Key(s: System, q: nat): string { if q < |s.disp.chans| then s.disp.chans[q].key else "" }

  function Removal(r: Read): T.Label { T.Commit(r.conv, r.user, r.agent) }

  function Next(input: seq<D.Record>, s: System, l: Label): System
    requires Enabled(input, s, l)
  {
    match l
    case Dispatch(step) => s.(disp := D.Next(input, s.disp, step))
    case OnlineBy(q, user, server, bot, now) =>
      s.(store := T.Next(s.store, T.GoOnline(Key(s, q), user, server, bot, now)))
    case AssignBy(q, agent) => s.(store := T.Next(s.store, T.Assign(Key(s, q), agent)))
    case MessageBy(q, now) => s.(store := T.Next(s.store, T.Message(Key(s, q), now)))
    case ReadBy(q) =>
      if Key(s, q) in s.store.hashes then s.(pending := s.pending[q := Found(s.store, Key(s, q))]) else s
    case CommitBy(q) => s.(store := T.Next(s.store, Removal(s.pending[q])), pending := s.pending - {q})
    case AbortBy(q) => s.(pending := s.pending - {q})
    case GatewayRead(g, c) => if c in s.store.hashes then s.(gateway := s.gateway[g := Found(s.store, c)]) else s
    case GatewayCommit(g) => s.(store := T.Next(s.store, Removal(s.gateway[g])), gateway := s.gateway - {g})
    case GatewayAbort(g) => s.(gateway := s.gateway - {g})
  }

  /** The step with an atomic removal, which happens where it commits. */
  function Atomic(s: System, l: Label): seq<T.Label> {
    match l
    case OnlineBy(q, user, server, bot, now) => [T.GoOnline(Key(s, q), user, server, bot, now)]
    case AssignBy(q, agent) => [T.Assign(Key(s, q), agent)]
    case MessageBy(q, now) => [T.Message(Key(s, q), now)]
    case CommitBy(q) => if q in s.pending then [T.Offline(s.pending[q].conv)] else []
    case GatewayCommit(g) => if g in s.gateway then [T.Offline(s.gateway[g].conv)] else []
    case _ => []
  }

  /** What a removal has read for one field does for that field what the hash's own value would do: it
      is that value, or the hash has none and there is nothing to remove. */
  predicate FieldOk(value: string, sets: SetStore, c: string, read: string) {
    read == value || (value == "" && c !in Members(sets, read))
  }

  /** A removal that has read this of a chat agrees with what the step writes to it. */
  predicate Agrees(store: T.Store, l: Label, r: Read) {
    match l
    case OnlineBy(_, user, _, _, _) =>
      FieldOk(user, store.users, r.conv, r.user) && FieldOk("", store.agents, r.conv, r.agent)
    case AssignBy(_, agent) => FieldOk(agent, store.agents, r.conv, r.agent)
    case _ => true
  }

  /** A chat is started or assigned only while each gateway removal of it that is on the way agrees.
      Removals may overlap one another and everything else. */
  predicate Allowed(s: System, l: Label) {
    l.OnlineBy? || l.AssignBy? ==>
      forall g | g in s.gateway && s.gateway[g].conv == Key(s, l.q) :: Agrees(s.store, l, s.gateway[g])
  }

  ghost predicate Reaches(input: seq<D.Record>, s: System, run: seq<Label>, t: System)
    decreases |run|
  {
    if run == [] then s == t
    else Enabled(input, s, run[0]) && Allowed(s, run[0]) && Reaches(input, Next(input, s, run[0]), run[1..], t)
  }

  ghost function AtomicRun(input: seq<D.Record>, s: System, run: seq<Label>): seq<T.Label>
    decreases |run|
  {
    if run == [] || !Enabled(input, s, run[0]) then []
    else Atomic(s, run[0]) + AtomicRun(input, Next(input, s, run[0]), run[1..])
  }

  // ----- reads stay good

  function UserOf(store: T.Store, c: string): string { T.OrEmpty(T.HashOf(store, c).user) }

  function AgentOf(store: T.Store, c: string): string { T.OrEmpty(T.HashOf(store, c).agent) }

  /** The read is still true, or other removals have left nothing for it to do. */
  predicate Good(store: T.Store, r: Read) {
    && FieldOk(UserOf(store, r.conv), store.users, r.conv, r.user)
    && FieldOk(AgentOf(store, r.conv), store.agents, r.conv, r.agent)
  }

  predicate NoneEmpty(m: SetStore) { forall k | k in m :: m[k] != {} }

  /** No stored set is empty, and the indexes agree. */
  ghost predicate Tidy(store: T.Store) { NoneEmpty(store.users) && NoneEmpty(store.agents) && T.Agree(store) }

  /** A worker's uncommitted read is by one inside its own chat_end handler. */
  ghost predicate WorkersOk(input: seq<D.Record>, s: System) {
    forall q | q in s.pending ::
      DT.Handles(input, s.disp, q, D.ChatEnd) && s.pending[q].conv == Key(s, q) && Good(s.store, s.pending[q])
  }

  ghost predicate GatewayOk(s: System) { forall g | g in s.gateway :: Good(s.store, s.gateway[g]) }

  ghost predicate ReadsOk(input: seq<D.Record>, s: System) {
    WorkersOk(input, s) && GatewayOk(s) && Tidy(s.store)
  }

  ghost predicate Inv(input: seq<D.Record>, s: System) { DI.Inv(input, s.disp) && ReadsOk(input, s) }

  lemma TidyStep(store: T.Store, e: T.Label)
    requires Tidy(store)
    ensures Tidy(T.Next(store, e))
  {
    T.AgreeStep(store, e);
  }

  /** A message leaves a read of its chat good. */
  lemma MessageStays(store: T.Store, e: T.Label, r: Read)
    requires Good(store, r) && e.Message?
    ensures Good(T.Next(store, e), r)
  {
  }

  /** So does any event of another chat. */
  lemma OtherStays(store: T.Store, e: T.Label, r: Read)
    requires Good(store, r) && e.conv != r.conv
    ensures Good(T.Next(store, e), r)
  {
    assert T.HashOf(T.Next(store, e), r.conv) == T.HashOf(store, r.conv);
  }

  /** And any removal on a good read. */
  lemma RemovalKeeps(store: T.Store, done: Read, r: Read)
    requires Good(store, done) && Good(store, r)
    ensures Good(T.Next(store, Removal(done)), r)
  {
    if done.conv != r.conv { OtherStays(store, Removal(done), r); }
  }

  /** Starting or assigning a chat leaves a gateway's read of it good exactly if it agrees. */
  lemma AgreesExactly(s: System, l: Label, g: nat)
    requires (l.OnlineBy? || l.AssignBy?) && g in s.gateway && s.gateway[g].conv == Key(s, l.q)
    requires Good(s.store, s.gateway[g])
    ensures Good(T.Next(s.store, Atomic(s, l)[0]), s.gateway[g]) <==> Agrees(s.store, l, s.gateway[g])
  {
  }

  lemma DispatchKeeps(input: seq<D.Record>, s: System, step: D.Label)
    requires DI.MapsOk(s.disp) && ReadsOk(input, s) && Enabled(input, s, Dispatch(step))
    ensures ReadsOk(input, Next(input, s, Dispatch(step)))
  {
    var t := Next(input, s, Dispatch(step));
    forall q | q in s.pending ensures DT.Handles(input, t.disp, q, D.ChatEnd) && s.pending[q].conv == Key(t, q) {
      DT.StaysHandling(input, s.disp, step, q, D.ChatEnd);
    }
  }

  lemma MessageKeeps(input: seq<D.Record>, s: System, q: nat, now: int)
    requires ReadsOk(input, s) && Enabled(input, s, MessageBy(q, now))
    ensures ReadsOk(input, Next(input, s, MessageBy(q, now)))
  {
    var e := T.Message(Key(s, q), now);
    TidyStep(s.store, e);
    forall r | Good(s.store, r) ensures Good(T.Next(s.store, e), r) {
      MessageStays(s.store, e, r);
    }
  }

  /** A worker that starts or assigns a chat meets no worker's read of it: that would be its own. */
  lemma EventKeepsWorkers(input: seq<D.Record>, s: System, l: Label)
    requires DI.MapsOk(s.disp) && WorkersOk(input, s) && Enabled(input, s, l) && (l.OnlineBy? || l.AssignBy?)
    ensures WorkersOk(input, Next(input, s, l))
  {
    var t := Next(input, s, l);
    forall q | q in t.pending ensures Good(t.store, t.pending[q]) {
      if Key(s, q) == Key(s, l.q) {
        DT.OneHandler(input, s.disp, l.q, q, if l.AssignBy? then D.Transfer else D.OtherEvent, D.ChatEnd);
      }
      OtherStays(s.store, Atomic(s, l)[0], s.pending[q]);
    }
  }

  lemma EventKeepsGateway(input: seq<D.Record>, s: System, l: Label)
    requires GatewayOk(s) && Enabled(input, s, l) && Allowed(s, l) && (l.OnlineBy? || l.AssignBy?)
    ensures GatewayOk(Next(input, s, l))
  {
    var t := Next(input, s, l);
    forall g | g in t.gateway ensures Good(t.store, t.gateway[g]) {
      if s.gateway[g].conv == Key(s, l.q) {
        AgreesExactly(s, l, g);
      } else {
        OtherStays(s.store, Atomic(s, l)[0], s.gateway[g]);
      }
    }
  }

  /** Removals may overlap: whichever commits first, the others' reads stay good. */
  lemma CommitKeeps(input: seq<D.Record>, s: System, l: Label)
    requires ReadsOk(input, s) && Enabled(input, s, l) && (l.CommitBy? || l.GatewayCommit?)
    ensures ReadsOk(input, Next(input, s, l))
  {
    var done := if l.CommitBy? then s.pending[l.q] else s.gateway[l.g];
    TidyStep(s.store, Removal(done));
    forall r | Good(s.store, r) ensures Good(T.Next(s.store, Removal(done)), r) {
      RemovalKeeps(s.store, done, r);
    }
  }

  predicate IsRead(l: Label) { l.ReadBy? || l.AbortBy? || l.GatewayRead? || l.GatewayAbort? }

  lemma ReadKeeps(input: seq<D.Record>, s: System, l: Label)
    requires ReadsOk(input, s) && Enabled(input, s, l) && IsRead(l)
    ensures ReadsOk(input, Next(input, s, l))
  {
    WorkerReads(input, s, l);
    GatewayReads(input, s, l);
  }

  lemma WorkerReads(input: seq<D.Record>, s: System, l: Label)
    requires WorkersOk(input, s) && Enabled(input, s, l) && IsRead(l)
    ensures WorkersOk(input, Next(input, s, l))
  {
  }

  lemma GatewayReads(input: seq<D.Record>, s: System, l: Label)
    requires GatewayOk(s) && Enabled(input, s, l) && IsRead(l)
    ensures GatewayOk(Next(input, s, l))
  {
  }

  /** What a handler does to the tracker is for the conversation of the record it handles: a chat_start
      puts it online, a transfer assigns it, a chat_end reads it and later removes what was read. */
  lemma HandlersAct(input: seq<D.Record>, s: System, l: Label)
    requires Inv(input, s) && Enabled(input, s, l) && (l.OnlineBy? || l.AssignBy? || l.ReadBy? || l.CommitBy?)
    ensures var c := input[s.disp.chans[l.q].worker.off].key;
            var t := Next(input, s, l);
            && t.disp == s.disp && t.gateway == s.gateway
            && (l.OnlineBy? ==> t.store == T.Next(s.store, T.GoOnline(c, l.user, l.server, l.bot, l.now)))
            && (l.AssignBy? ==> t.store == T.Next(s.store, T.Assign(c, l.agent)))
            && (l.ReadBy? ==> t.store == s.store
                              && t.pending == if c in s.store.hashes then s.pending[l.q := Found(s.store, c)]
                                              else s.pending)
            && (l.CommitBy? ==> s.pending[l.q].conv == c && t.pending == s.pending - {l.q}
                                && t.store == T.Next(s.store, T.Commit(c, s.pending[l.q].user, s.pending[l.q].agent)))
  {
    DT.HandlesOwn(input, s.disp, l.q,
                  if l.OnlineBy? then D.OtherEvent else if l.AssignBy? then D.Transfer else D.ChatEnd);
  }

  /** Until its removal is committed or has raised, a handler does not end. */
  lemma HandlerWaits(input: seq<D.Record>, s: System, q: nat, ok: bool)
    requires Inv(input, s) && DT.Handles(input, s.disp, q, D.ChatEnd)
    ensures Enabled(input, s, Dispatch(D.Finish(q, ok))) <==> q !in s.pending
  {
  }

  /** A removal is read once; committed at once it is the atomic one; raised, it leaves all as it was. */
  lemma RemovalRuns(input: seq<D.Record>, s: System, q: nat)
    requires DT.Handles(input, s.disp, q, D.ChatEnd) && q !in s.pending && s.disp.chans[q].key in s.store.hashes
    ensures Enabled(input, s, ReadBy(q)) && !Enabled(input, s, CommitBy(q)) && !Enabled(input, s, AbortBy(q))
    ensures var s1 := Next(input, s, ReadBy(q));
            && !Enabled(input, s1, ReadBy(q)) && Enabled(input, s1, CommitBy(q)) && Enabled(input, s1, AbortBy(q))
            && Next(input, s1, CommitBy(q)) == s.(store := T.Next(s.store, T.Offline(s.disp.chans[q].key)))
            && Next(input, s1, AbortBy(q)) == s
  {
    var s1 := s.(pending := s.pending[q := Found(s.store, s.disp.chans[q].key)]);
    assert Next(input, s, ReadBy(q)) == s1 && s1.pending - {q} == s.pending;
  }

  /** The same for a disconnect of the gateway, of any chat and at any time; disconnects run side by side. */
  lemma GatewayRuns(input: seq<D.Record>, s: System, g: nat, c: string)
    requires g !in s.gateway && c in s.store.hashes
    ensures Enabled(input, s, GatewayRead(g, c)) && !Enabled(input, s, GatewayCommit(g))
    ensures !Enabled(input, s, GatewayAbort(g))
    ensures var s1 := Next(input, s, GatewayRead(g, c));
            && !Enabled(input, s1, GatewayRead(g, c))
            && Enabled(input, s1, GatewayCommit(g)) && Enabled(input, s1, GatewayAbort(g))
            && Next(input, s1, GatewayCommit(g)) == s.(store := T.Next(s.store, T.Offline(c)))
            && Next(input, s1, GatewayAbort(g)) == s
  {
    assert Next(input, s, GatewayRead(g, c)).gateway - {g} == s.gateway;
  }

  /** A message can be stamped whenever its conversation has ever had a worker, inside a handler or not. */
  lemma MessageActs(input: seq<D.Record>, s: System, q: nat, now: int)
    ensures Enabled(input, s, MessageBy(q, now)) <==> q < |s.disp.chans|
    ensures q < |s.disp.chans| ==>
              Next(input, s, MessageBy(q, now)) == s.(store := T.Next(s.store, T.Message(s.disp.chans[q].key, now)))
  {
  }

  lemma InvStep(input: seq<D.Record>, s: System, l: Label)
    requires Inv(input, s) && Enabled(input, s, l) && Allowed(s, l)
    ensures Inv(input, Next(input, s, l))
  {
    if l.Dispatch? {
      DI.InvStep(input, s.disp, l.step);
      DispatchKeeps(input, s, l.step);
    } else if l.MessageBy? {
      MessageKeeps(input, s, l.q, l.now);
    } else if l.CommitBy? || l.GatewayCommit? {
      CommitKeeps(input, s, l);
    } else if IsRead(l) {
      ReadKeeps(input, s, l);
    } else {
      TidyStep(s.store, Atomic(s, l)[0]);
      EventKeepsWorkers(input, s, l);
      EventKeepsGateway(input, s, l);
    }
  }

  // ----- the split removal is as good as an atomic one

  lemma AfterOne(store: T.Store, e: T.Label)
    ensures T.After(store, []) == store && T.After(store, [e]) == T.Next(store, e)
  {
    assert [e][1..] == [];
  }

  /** Removing on a good read is the whole removal, and on no other. */
  lemma RemovalIsOffline(store: T.Store, r: Read)
    requires Tidy(store)
    ensures Good(store, r) <==> T.Next(store, Removal(r)) == T.Next(store, T.Offline(r.conv))
  {
    var own := Read(r.conv, UserOf(store, r.conv), AgentOf(store, r.conv));
    OfflineIsOwn(store, r.conv);
    FieldRemoves(store.users, r.conv, own.user, r.user);
    FieldRemoves(store.agents, r.conv, own.agent, r.agent);
    if r.conv in store.hashes {
      assert own.user != "" ==> r.conv in Members(store.users, own.user);
      assert own.agent != "" ==> r.conv in Members(store.agents, own.agent);
    }
  }

  function Without(m: SetStore, k: string, c: string): SetStore { if k != "" then Srem(m, k, c) else m }

  /** A removal on the hash's own fields is the atomic one, also where there is no hash. */
  lemma OfflineIsOwn(store: T.Store, c: string)
    requires Tidy(store)
    ensures T.Next(store, T.Offline(c)) == T.Next(store, T.Commit(c, UserOf(store, c), AgentOf(store, c)))
  {
    if c !in store.hashes { assert store.hashes - {c} == store.hashes && store.byTime - {c} == store.byTime; }
  }

  /** Two values remove the same from an index exactly if they are the same or neither's set holds it. */
  lemma FieldRemoves(m: SetStore, c: string, value: string, read: string)
    requires NoneEmpty(m)
    ensures FieldOk(value, m, c, read) ==> Without(m, value, c) == Without(m, read, c)
    ensures (value != "" ==> c in Members(m, value)) && Without(m, value, c) == Without(m, read, c) ==>
              FieldOk(value, m, c, read)
  {
    SremNothing(m, read, c);
  }

  /** Removing nothing from a set, none being stored empty, changes nothing. */
  lemma SremNothing(m: SetStore, k: string, c: string)
    requires NoneEmpty(m)
    ensures c !in Members(m, k) ==> Srem(m, k, c) == m
  {
    if c !in Members(m, k) { assert Members(m, k) - {c} == Members(m, k); }
  }

  lemma AtomicStep(input: seq<D.Record>, s: System, l: Label)
    requires ReadsOk(input, s) && Enabled(input, s, l)
    ensures T.After(s.store, Atomic(s, l)) == Next(input, s, l).store
    ensures forall i | 0 <= i < |Atomic(s, l)| :: !Atomic(s, l)[i].Commit?
  {
    match l
    case CommitBy(q) =>
      RemovalIsOffline(s.store, s.pending[q]);
      AfterOne(s.store, T.Offline(s.pending[q].conv));
    case GatewayCommit(g) =>
      RemovalIsOffline(s.store, s.gateway[g]);
      AfterOne(s.store, T.Offline(s.gateway[g].conv));
    case OnlineBy(q, user, server, bot, now) => AfterOne(s.store, T.GoOnline(Key(s, q), user, server, bot, now));
    case AssignBy(q, agent) => AfterOne(s.store, T.Assign(Key(s, q), agent));
    case MessageBy(q, now) => AfterOne(s.store, T.Message(Key(s, q), now));
    case _ =>
  }

  lemma {:induction false} AfterConcat(store: T.Store, run: seq<T.Label>, more: seq<T.Label>)
    ensures T.After(store, run + more) == T.After(T.After(store, run), more)
    decreases |run|
  {
    if run == [] {
      assert run + more == more;
    } else {
      var next := T.Next(store, run[0]);
      assert (run + more)[0] == run[0] && (run + more)[1..] == run[1..] + more;
      AfterConcat(next, run[1..], more);
    }
  }

  /** The split removal refines the atomic one.  Removals of a chat, by its worker and by any number of
      disconnects, may overlap one another and late messages in any way: as long as the chat is started
      or assigned only in agreement with the gateway removals on the way, the tracker's state is that of
      the run in which every removal is one step.  That workers do not disturb one another follows from
      the dispatcher. */
  lemma {:induction false} OfflineRefinesAtomic(input: seq<D.Record>, s: System, run: seq<Label>, t: System)
    requires Inv(input, s) && Reaches(input, s, run, t)
    ensures t.store == T.After(s.store, AtomicRun(input, s, run))
    ensures forall i | 0 <= i < |AtomicRun(input, s, run)| :: !AtomicRun(input, s, run)[i].Commit?
    decreases |run|
  {
    if run != [] {
      var s1 := Next(input, s, run[0]);
      InvStep(input, s, run[0]);
      AtomicStep(input, s, run[0]);
      OfflineRefinesAtomic(input, s1, run[1..], t);
      AfterConcat(s.store, Atomic(s, run[0]), AtomicRun(input, s1, run[1..]));
    }
  }

  /** Every allowed continuation does what its atomic run does. */
  ghost predicate Refines(input: seq<D.Record>, s: System) {
    forall run, t | Reaches(input, s, run, t) :: t.store == T.After(s.store, AtomicRun(input, s, run))
  }

  /** A gateway read that is not good makes its commit differ from the atomic removal. */
  lemma BadRead(input: seq<D.Record>, s: System, g: nat)
    requires Tidy(s.store) && g in s.gateway && !Good(s.store, s.gateway[g])
    ensures !Refines(input, s)
  {
    var l := GatewayCommit(g);
    var t := Next(input, s, l);
    RemovalIsOffline(s.store, s.gateway[g]);
    AfterOne(s.store, T.Offline(s.gateway[g].conv));
    assert [l][1..] == [] && Reaches(input, t, [], t);
    assert Reaches(input, s, [l], t);
    assert AtomicRun(input, t, [l][1..]) == [];
    assert AtomicRun(input, s, [l]) == [T.Offline(s.gateway[g].conv)];
  }

  /** The discipline, exactly: after a step from a state of an allowed run, every allowed continuation
      does what its atomic run does if and only if the step is allowed. */
  lemma AllowedExactly(input: seq<D.Record>, s: System, l: Label)
    requires Inv(input, s) && Enabled(input, s, l)
    ensures Refines(input, Next(input, s, l)) <==> Allowed(s, l)
  {
    var t := Next(input, s, l);
    if Allowed(s, l) {
      InvStep(input, s, l);
      forall run, u | Reaches(input, t, run, u) ensures u.store == T.After(t.store, AtomicRun(input, t, run)) {
        OfflineRefinesAtomic(input, t, run, u);
      }
    } else {
      TidyStep(s.store, Atomic(s, l)[0]);
      var g :| g in s.gateway && s.gateway[g].conv == Key(s, l.q) && !Good(t.store, s.gateway[g]) by {
        forall g | g in s.gateway && s.gateway[g].conv == Key(s, l.q) { AgreesExactly(s, l, g); }
      }
      BadRead(input, t, g);
    }
  }

  /** Exact indexes for the whole system: if besides chats go online only when untracked or again for
      the same user before they are assigned, are assigned to one agent and updated only while
      tracked, every index is the inverse image of the hashes. */
  lemma SystemIndexes(input: seq<D.Record>, run: seq<Label>, t: System)
    requires Reaches(input, START, run, t) && T.Disciplined(T.EMPTY, AtomicRun(input, START, run))
    ensures T.Exact(t.store)
  {
    DI.InvInitial(input);
    OfflineRefinesAtomic(input, START, run, t);
    T.EmptyExact();
    T.ExactRun(T.EMPTY, AtomicRun(input, START, run));
  }
}
