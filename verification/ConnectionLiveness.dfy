/** The gateway's connection tables and the expiring registry keys behind them, as a timed state
    machine. Every Redis call of connect, heartbeat and disconnect lands as a step of its own. */
module ConnectionLiveness {
  import opened Options

  type Conv = string

  const STALE_TIMEOUT_SECONDS := 120.0
  const TTL_SECONDS := 300.0

  /** A stale sweep: when it looked, and which of the conversations it found it has yet to evict. */
  datatype Sweep = Sweep(at: real, left: set<Conv>)

  datatype State = State(
    clock: real,
    connections: map<Conv, nat>,      // conversation -> socket
    lastSeen: map<Conv, real>,
    sendLocks: map<Conv, nat>,
    registry: map<Conv, real>,        // ws:conn:<conversation> -> expiry
    registering: multiset<Conv>,      // SET not yet landed
    refreshing: multiset<Conv>,       // EXPIRE not yet landed
    unregistering: multiset<Conv>,    // DEL not yet landed
    registered: set<Conv>,            // connections whose connect has finished
    unrefreshed: map<Conv, real>,     // first heartbeat since an EXPIRE last landed
    sweep: Option<Sweep>,
    swept: real                       // when the last finished sweep looked
  )

  function Init(clock: real): State {
    State(clock, map[], map[], map[], map[], multiset{}, multiset{}, multiset{}, {}, map[], None, clock)
  }

  datatype Label =
    | Tick(now: real)
    | ForceClose(conv: Conv)                       // connect, duplicate found
    | Accept(conv: Conv, socket: nat, lock: nat)   // connect, up to the registry call
    | Register(conv: Conv)
    | Heartbeat(conv: Conv)
    | Refresh(conv: Conv)
    | Disconnect(conv: Conv)
    | Unregister(conv: Conv)
    | SweepRead
    | Evict(conv: Conv)
    | SweepDone

  predicate Enabled(s: State, l: Label) {
    match l
    case Tick(now) => s.clock <= now
    case ForceClose(c) => c in s.connections
    case Accept(_, _, _) => true
    case Register(c) => c in s.registering
    case Heartbeat(_) => true
    case Refresh(c) => c in s.refreshing
    case Disconnect(_) => true
    case Unregister(c) => c in s.unregistering
    case SweepRead => s.sweep.None?
    case Evict(c) => s.sweep.Some? && c in s.sweep.value.left
    case SweepDone => s.sweep.Some? && s.sweep.value.left == {}
  }

  predicate KeyAlive(s: State, c: Conv) { c in s.registry && s.clock < s.registry[c] }

  function Stale(s: State): set<Conv> {
    set c | c in s.lastSeen && s.clock - s.lastSeen[c] > STALE_TIMEOUT_SECONDS
  }

  function Popped(s: State, c: Conv): State {
    s.(connections := s.connections - {c}, lastSeen := s.lastSeen - {c}, sendLocks := s.sendLocks - {c},
       registered := s.registered - {c})
  }

  function Disconnected(s: State, c: Conv): State {
    Popped(s, c).(unregistering := s.unregistering + multiset{c})
  }

  function Accepted(s: State, c: Conv, socket: nat, lock: nat): State {
    s.(connections := s.connections[c := socket], lastSeen := s.lastSeen[c := s.clock],
       sendLocks := s.sendLocks[c := lock], registered := s.registered - {c},
       registering := s.registering + multiset{c})
  }

  function KeySet(s: State, c: Conv): State {
    s.(registry := s.registry[c := s.clock + TTL_SECONDS], unrefreshed := s.unrefreshed - {c})
  }

  function ExpireLanded(s: State, c: Conv): State {
    s.(registry := if KeyAlive(s, c) then s.registry[c := s.clock + TTL_SECONDS] else s.registry,
       refreshing := s.refreshing - multiset{c}, unrefreshed := s.unrefreshed - {c})
  }

  function SetLanded(s: State, c: Conv): State {
    KeySet(s, c).(registering := s.registering - multiset{c},
                  registered := if c in s.connections then s.registered + {c} else s.registered)
  }

  function Next(s: State, l: Label): State
    requires Enabled(s, l)
  {
    match l
    case Tick(now) => s.(clock := now)
    case ForceClose(c) => Popped(s, c)
    case Accept(c, socket, lock) => Accepted(s, c, socket, lock)
    case Register(c) => SetLanded(s, c)
    case Heartbeat(c) =>
      s.(lastSeen := s.lastSeen[c := s.clock], refreshing := s.refreshing + multiset{c},
         unrefreshed := if c in s.unrefreshed then s.unrefreshed else s.unrefreshed[c := s.clock])
    case Refresh(c) => ExpireLanded(s, c)
    case Disconnect(c) => Disconnected(s, c)
    case Unregister(c) =>
      s.(registry := s.registry - {c}, unregistering := s.unregistering - multiset{c})
    case SweepRead => s.(sweep := Some(Sweep(s.clock, Stale(s))))
    case Evict(c) => Disconnected(s, c).(sweep := Some(s.sweep.value.(left := s.sweep.value.left - {c})))
    case SweepDone => s.(sweep := None, swept := s.sweep.value.at)
  }

  predicate Runs(s: State, run: seq<Label>)
    decreases |run|
  {
    run != [] ==> Enabled(s, run[0]) && Runs(Next(s, run[0]), run[1..])
  }

  function After(s: State, run: seq<Label>): State
    requires Runs(s, run)
    decreases |run|
  {
    if run == [] then s else After(Next(s, run[0]), run[1..])
  }

  // ----- what is asked of the environment

  /** Connects and disconnects of one conversation do not overlap: none is accepted while a DEL of its
      key is still on the way. */
  predicate Allowed(s: State, l: Label) { l.Accept? ==> l.conv !in s.unregistering }

  /** Each EXPIRE lands within d of its heartbeat, and less than 180 - d has passed since the last
      finished sweep looked. */
  predicate Timely(d: real, s: State) {
    && s.clock + d < s.swept + 180.0
    && forall c | c in s.unrefreshed :: s.clock <= s.unrefreshed[c] + d
  }

  /** Both hold throughout a run. */
  predicate Disciplined(d: real, s: State, run: seq<Label>)
    requires Runs(s, run)
    decreases |run|
  {
    Timely(d, s) && (run != [] ==> Allowed(s, run[0]) && Disciplined(d, Next(s, run[0]), run[1..]))
  }

  // ----- the registry outlives liveness

  predicate KeysAlive(s: State) { forall c | c in s.registered :: c in s.connections && KeyAlive(s, c) }

  /** Sockets and send locks of the same conversations, each of them with a time it was seen. */
  predicate TablesFit(s: State) {
    s.connections.Keys == s.sendLocks.Keys <= s.lastSeen.Keys && s.registered <= s.connections.Keys
  }

  predicate TablesAgree(s: State) {
    TablesFit(s) && forall c | c in s.unregistering :: c !in s.connections
  }

  predicate SeenSince(s: State) {
    && s.swept <= s.clock
    && (s.sweep.Some? ==> s.sweep.value.at <= s.clock)
    && forall c | c in s.lastSeen ::
         && s.swept - 120.0 <= s.lastSeen[c] <= s.clock
         && (s.sweep.Some? && c !in s.sweep.value.left ==>
               s.sweep.value.at - 120.0 <= s.lastSeen[c])
  }

  predicate KeyOutlives(d: real, s: State, c: Conv) {
    && c in s.registry && c in s.lastSeen
    && if c in s.unrefreshed then s.unrefreshed[c] + d < s.registry[c]
       else s.lastSeen[c] + 300.0 <= s.registry[c]
  }

  predicate Inv(d: real, s: State) {
    TablesAgree(s) && SeenSince(s) && forall c | c in s.registered :: KeyOutlives(d, s, c)
  }

  lemma InvAlive(d: real, s: State)
    requires d >= 0.0 && Inv(d, s) && Timely(d, s)
    ensures KeysAlive(s)
  {
    forall c | c in s.registered ensures c in s.connections && KeyAlive(s, c) {
      assert KeyOutlives(d, s, c);
    }
  }

  lemma FitStep(s: State, l: Label)
    requires TablesFit(s) && Enabled(s, l)
    ensures TablesFit(Next(s, l))
  {
  }

  lemma TablesStep(s: State, l: Label)
    requires TablesAgree(s) && Enabled(s, l) && Allowed(s, l)
    ensures TablesAgree(Next(s, l))
  {
    FitStep(s, l);
  }

  lemma SeenStep(s: State, l: Label)
    requires SeenSince(s) && Enabled(s, l)
    ensures SeenSince(Next(s, l))
  {
    var s' := Next(s, l);
    forall c | c in s'.lastSeen
      ensures s'.swept - 120.0 <= s'.lastSeen[c] <= s'.clock
      ensures s'.sweep.Some? && c !in s'.sweep.value.left ==>
                s'.sweep.value.at - 120.0 <= s'.lastSeen[c]
    {
      if l.SweepRead? { assert c in Stale(s) <==> s.clock - s.lastSeen[c] > 120.0; }
    }
  }

  /** A heartbeat finds the old key with more than d left, so that it is still there when the EXPIRE
      lands. */
  lemma KeyStep(d: real, s: State, l: Label, c: Conv)
    requires d >= 0.0 && Timely(d, s) && SeenSince(s) && Enabled(s, l) && c in Next(s, l).registered
    requires c in s.registered ==> c in s.connections && KeyOutlives(d, s, c)
    requires c in s.unregistering ==> c !in s.connections
    requires c in s.connections ==> c in s.lastSeen
    ensures KeyOutlives(d, Next(s, l), c)
  {
    match l
    case Register(_) =>
    case Heartbeat(_) =>
    case Refresh(_) =>
    case _ => assert c in s.registered;
  }

  lemma InvStep(d: real, s: State, l: Label)
    requires d >= 0.0 && Inv(d, s) && Timely(d, s) && Enabled(s, l) && Allowed(s, l)
    ensures Inv(d, Next(s, l))
  {
    TablesStep(s, l);
    SeenStep(s, l);
    forall c | c in Next(s, l).registered ensures KeyOutlives(d, Next(s, l), c) {
      KeyStep(d, s, l, c);
    }
  }

  /** What no step breaks, and what no allowed step breaks in time. */
  lemma StepKeeps(s: State, l: Label)
    requires TablesFit(s) && SeenSince(s) && Enabled(s, l)
    ensures TablesFit(Next(s, l)) && SeenSince(Next(s, l))
    ensures Allowed(s, l) ==> forall d | d >= 0.0 && Inv(d, s) && Timely(d, s) :: Inv(d, Next(s, l))
  {
    FitStep(s, l);
    SeenStep(s, l);
    forall d | d >= 0.0 && Inv(d, s) && Timely(d, s) && Allowed(s, l) ensures Inv(d, Next(s, l)) {
      InvStep(d, s, l);
    }
  }

  lemma {:induction false} InvRun(d: real, s: State, run: seq<Label>)
    requires d >= 0.0 && Inv(d, s) && Runs(s, run) && Disciplined(d, s, run)
    ensures Inv(d, After(s, run)) && Timely(d, After(s, run))
    decreases |run|
  {
    if run != [] {
      InvStep(d, s, run[0]);
      InvRun(d, Next(s, run[0]), run[1..]);
    }
  }

  /** At every instant of every disciplined run, each connection whose connect has finished has an
      unexpired registry key. */
  lemma RegistryOutlivesLiveness(d: real, start: real, run: seq<Label>)
    requires d >= 0.0 && Runs(Init(start), run) && Disciplined(d, Init(start), run)
    ensures KeysAlive(After(Init(start), run))
  {
    InvRun(d, Init(start), run);
    InvAlive(d, After(Init(start), run));
  }

  // ----- one conversation's entries over a run

  /** The step gives the conversation another socket or takes its socket away. */
  predicate Replaces(l: Label, c: Conv) {
    (l.Accept? || l.ForceClose? || l.Disconnect? || l.Evict?) && l.conv == c
  }

  predicate NoneReplaces(run: seq<Label>, c: Conv) { forall i | 0 <= i < |run| :: !Replaces(run[i], c) }

  /** When the conversation's last heartbeat came. */
  function LastBeat(s: State, run: seq<Label>, c: Conv): Option<real>
    requires Runs(s, run)
    decreases |run|
  {
    if run == [] then None
    else
      var later := LastBeat(Next(s, run[0]), run[1..], c);
      if later.Some? then later else if run[0] == Heartbeat(c) then Some(s.clock) else None
  }

  lemma {:induction false} EntriesKept(s: State, run: seq<Label>, c: Conv)
    requires Runs(s, run) && NoneReplaces(run, c) && c in s.connections && c in s.sendLocks && c in s.lastSeen
    ensures var t, beat := After(s, run), LastBeat(s, run, c);
            && c in t.connections && t.connections[c] == s.connections[c]
            && c in t.sendLocks && t.sendLocks[c] == s.sendLocks[c]
            && c in t.lastSeen && t.lastSeen[c] == if beat.Some? then beat.value else s.lastSeen[c]
    decreases |run|
  {
    if run != [] {
      assert !Replaces(run[0], c) && NoneReplaces(run[1..], c);
      EntriesKept(Next(s, run[0]), run[1..], c);
    }
  }

  /** From its accept on, until it is superseded, disconnected or evicted and whatever else happens, a
      conversation is served by this socket under this lock, was last seen at its last heartbeat or else at
      the accept, and is drawn up for eviction if and only if that is more than 120 s ago. */
  lemma ServedSince(s: State, c: Conv, socket: nat, lock: nat, run: seq<Label>)
    requires Runs(Next(s, Accept(c, socket, lock)), run) && NoneReplaces(run, c)
    ensures var s1 := Next(s, Accept(c, socket, lock));
            var t, beat := After(s1, run), LastBeat(s1, run, c);
            var seen := if beat.Some? then beat.value else s.clock;
            && c in t.connections && t.connections[c] == socket && c in t.sendLocks && t.sendLocks[c] == lock
            && c in t.lastSeen && t.lastSeen[c] == seen
            && (t.sweep.None? ==> (c in Next(t, SweepRead).sweep.value.left <==> t.clock - seen > 120.0))
  {
    EntriesKept(Next(s, Accept(c, socket, lock)), run, c);
  }

  predicate NoneAccepts(run: seq<Label>, c: Conv) { forall i | 0 <= i < |run| :: !(run[i].Accept? && run[i].conv == c) }

  /** Once its socket is taken away, a conversation has neither socket nor lock until one is accepted. */
  lemma {:induction false} UnservedSince(s: State, c: Conv, run: seq<Label>)
    requires Runs(s, run) && NoneAccepts(run, c) && c !in s.connections && c !in s.sendLocks
    ensures c !in After(s, run).connections && c !in After(s, run).sendLocks
    decreases |run|
  {
    if run != [] {
      assert !(run[0].Accept? && run[0].conv == c) && NoneAccepts(run[1..], c);
      UnservedSince(Next(s, run[0]), c, run[1..]);
    }
  }

  lemma TakenAway(s: State, l: Label)
    requires Enabled(s, l) && (l.ForceClose? || l.Disconnect? || l.Evict?)
    ensures var t := Next(s, l);
            && l.conv !in t.connections && l.conv !in t.sendLocks && l.conv !in t.lastSeen && t.registry == s.registry
            && t.connections == s.connections - {l.conv} && t.lastSeen == s.lastSeen - {l.conv}
            && t.unregistering == s.unregistering + if l.ForceClose? then multiset{} else multiset{l.conv}
  {
  }

  /** A SET lands, or an EXPIRE on a key that is still there. */
  predicate Lands(s: State, l: Label, c: Conv) {
    l == Register(c) || (l == Refresh(c) && c in s.registry && s.clock < s.registry[c])
  }

  function LastLanding(s: State, run: seq<Label>, c: Conv): Option<real>
    requires Runs(s, run)
    decreases |run|
  {
    if run == [] then None
    else
      var later := LastLanding(Next(s, run[0]), run[1..], c);
      if later.Some? then later else if Lands(s, run[0], c) then Some(s.clock) else None
  }

  lemma LandingStep(s: State, l: Label, c: Conv)
    requires Enabled(s, l) && l != Unregister(c)
    ensures var t := Next(s, l);
            if Lands(s, l, c) then c in t.registry && t.registry[c] == s.clock + 300.0
            else (c in t.registry <==> c in s.registry) && (c in s.registry ==> t.registry[c] == s.registry[c])
  {
    match l
    case Register(_) =>
    case Refresh(_) =>
    case Unregister(_) =>
    case _ => assert Next(s, l).registry == s.registry;
  }

  predicate NoneDeletes(run: seq<Label>, c: Conv) { forall i | 0 <= i < |run| :: run[i] != Unregister(c) }

  /** While no DEL lands, a key expires 300 s after the last SET of it or the last EXPIRE that found it. */
  lemma {:induction false} KeySince(s: State, run: seq<Label>, c: Conv)
    requires Runs(s, run) && NoneDeletes(run, c)
    ensures var t, landing := After(s, run), LastLanding(s, run, c);
            if landing.Some? then c in t.registry && t.registry[c] == landing.value + 300.0
            else (c in t.registry <==> c in s.registry) && (c in s.registry ==> t.registry[c] == s.registry[c])
    decreases |run|
  {
    if run != [] {
      assert run[0] != Unregister(c) && NoneDeletes(run[1..], c);
      LandingStep(s, run[0], c);
      KeySince(Next(s, run[0]), run[1..], c);
    }
  }

  // ----- calls on the way, and a sweep's list

  /** How often each of these labels is in the run. */
  function Accepts(run: seq<Label>, c: Conv): nat {
    if run == [] then 0 else (if run[0].Accept? && run[0].conv == c then 1 else 0) + Accepts(run[1..], c)
  }

  function Of(run: seq<Label>, l: Label): nat {
    if run == [] then 0 else (if run[0] == l then 1 else 0) + Of(run[1..], l)
  }

  lemma RegisteringStep(s: State, l: Label, c: Conv)
    requires Enabled(s, l)
    ensures Next(s, l).registering[c] ==
            s.registering[c] + (if l.Accept? && l.conv == c then 1 else 0) - (if l == Register(c) then 1 else 0)
  {
    match l
    case Accept(_, _, _) =>
    case Register(_) =>
    case _ => assert Next(s, l).registering == s.registering;
  }

  lemma {:induction false} Registering(s: State, run: seq<Label>, c: Conv)
    requires Runs(s, run)
    ensures After(s, run).registering[c] == s.registering[c] + Accepts(run, c) - Of(run, Register(c))
    decreases |run|
  {
    if run != [] {
      RegisteringStep(s, run[0], c);
      Registering(Next(s, run[0]), run[1..], c);
    }
  }

  lemma RefreshingStep(s: State, l: Label, c: Conv)
    requires Enabled(s, l)
    ensures Next(s, l).refreshing[c] ==
            s.refreshing[c] + (if l == Heartbeat(c) then 1 else 0) - (if l == Refresh(c) then 1 else 0)
  {
    match l
    case Heartbeat(_) =>
    case Refresh(_) =>
    case _ => assert Next(s, l).refreshing == s.refreshing;
  }

  lemma {:induction false} Refreshing(s: State, run: seq<Label>, c: Conv)
    requires Runs(s, run)
    ensures After(s, run).refreshing[c] == s.refreshing[c] + Of(run, Heartbeat(c)) - Of(run, Refresh(c))
    decreases |run|
  {
    if run != [] {
      RefreshingStep(s, run[0], c);
      Refreshing(Next(s, run[0]), run[1..], c);
    }
  }

  lemma UnregisteringStep(s: State, l: Label, c: Conv)
    requires Enabled(s, l)
    ensures Next(s, l).unregistering[c] ==
            s.unregistering[c] + (if l == Disconnect(c) || l == Evict(c) then 1 else 0)
            - (if l == Unregister(c) then 1 else 0)
  {
    match l
    case Disconnect(_) =>
    case Evict(_) =>
    case Unregister(_) =>
    case _ => assert Next(s, l).unregistering == s.unregistering;
  }

  lemma {:induction false} Unregistering(s: State, run: seq<Label>, c: Conv)
    requires Runs(s, run)
    ensures After(s, run).unregistering[c] ==
            s.unregistering[c] + Of(run, Disconnect(c)) + Of(run, Evict(c)) - Of(run, Unregister(c))
    decreases |run|
  {
    if run != [] {
      UnregisteringStep(s, run[0], c);
      Unregistering(Next(s, run[0]), run[1..], c);
    }
  }

  /** Each accept sends one SET, each heartbeat one EXPIRE, each disconnect and each eviction one DEL, and
      no call lands that was not sent: over any run a SET can land exactly while more connects have been
      accepted than SETs have landed, and so for the others. */
  lemma CallsLandOnce(start: real, run: seq<Label>, c: Conv)
    requires Runs(Init(start), run)
    ensures var t := After(Init(start), run);
            && (Enabled(t, Register(c)) <==> Of(run, Register(c)) < Accepts(run, c))
            && (Enabled(t, Refresh(c)) <==> Of(run, Refresh(c)) < Of(run, Heartbeat(c)))
            && (Enabled(t, Unregister(c)) <==> Of(run, Unregister(c)) < Of(run, Disconnect(c)) + Of(run, Evict(c)))
            && Of(run, Register(c)) <= Accepts(run, c) && Of(run, Refresh(c)) <= Of(run, Heartbeat(c))
            && Of(run, Unregister(c)) <= Of(run, Disconnect(c)) + Of(run, Evict(c))
            && (Enabled(t, ForceClose(c)) <==> c in t.connections)
  {
    Registering(Init(start), run, c);
    Refreshing(Init(start), run, c);
    Unregistering(Init(start), run, c);
  }

  predicate NoneDone(run: seq<Label>) { forall i | 0 <= i < |run| :: !run[i].SweepDone? }

  lemma {:induction false} ListShrinks(s: State, run: seq<Label>, c: Conv)
    requires Runs(s, run) && NoneDone(run) && s.sweep.Some?
    ensures var t := After(s, run).sweep;
            && t.Some? && t.value.at == s.sweep.value.at
            && (c in t.value.left <==> c in s.sweep.value.left && Of(run, Evict(c)) == 0)
            && (Of(run, Evict(c)) > 0 ==> c in s.sweep.value.left)
            && Of(run, Evict(c)) <= 1
    decreases |run|
  {
    if run != [] {
      assert !run[0].SweepDone? && NoneDone(run[1..]);
      ListShrinks(Next(s, run[0]), run[1..], c);
    }
  }

  /** A sweep evicts each conversation that was not seen for more than 120 s when it looked, once and
      whatever happens meanwhile, and no other; it is done when it has evicted them all. */
  lemma SweepEvictsEach(s: State, run: seq<Label>, c: Conv)
    requires Enabled(s, SweepRead) && Runs(Next(s, SweepRead), run) && NoneDone(run)
    ensures var t := After(Next(s, SweepRead), run);
            && (Enabled(t, Evict(c)) <==>
                c in s.lastSeen && s.clock - s.lastSeen[c] > 120.0 && Of(run, Evict(c)) == 0)
            && Of(run, Evict(c)) <= 1
            && (Enabled(t, SweepDone) ==>
                  (c in s.lastSeen && s.clock - s.lastSeen[c] > 120.0 <==> Of(run, Evict(c)) == 1)
                  && Next(t, SweepDone).swept == s.clock)
  {
    ListShrinks(Next(s, SweepRead), run, c);
  }

  // ----- each demand, exactly

  /** No disciplined continuation loses a key. */
  ghost predicate StaysAlive(d: real, s: State) {
    forall run | Runs(s, run) && Disciplined(d, s, run) :: KeysAlive(After(s, run))
  }

  lemma TwoSteps(d: real, s: State, a: Label, b: Label)
    requires Enabled(s, a) && Enabled(Next(s, a), b)
    requires Timely(d, s) && Timely(d, Next(s, a)) && Timely(d, Next(Next(s, a), b))
    requires Allowed(s, a) && Allowed(Next(s, a), b)
    ensures Runs(s, [a, b]) && Disciplined(d, s, [a, b]) && After(s, [a, b]) == Next(Next(s, a), b)
  {
    var s1 := Next(s, a);
    var s2 := Next(s1, b);
    assert Runs(s2, []) && After(s2, []) == s2 && Disciplined(d, s2, []);
    assert [b][1..] == [] && [a, b][1..] == [b];
    assert Runs(s1, [b]) && After(s1, [b]) == s2 && Disciplined(d, s1, [b]);
  }

  /** A connect accepted while the DEL of the last disconnect is on the way loses its key to it,
      however promptly everything happens. */
  lemma OverlapLosesKey(d: real, s: State, c: Conv, socket: nat, lock: nat)
    requires Timely(d, s) && c in s.unregistering
    ensures var t := Next(s, Accept(c, socket, lock));
            var run := [Register(c), Unregister(c)];
            && Runs(t, run) && Disciplined(d, t, run)
            && c in After(t, run).registered && c !in After(t, run).registry
  {
    var t := Next(s, Accept(c, socket, lock));
    TwoSteps(d, t, Register(c), Unregister(c));
  }

  /** So the check before an accept is exact: from a state of a disciplined run, a step after which
      no disciplined continuation loses a key is an allowed one, and the other way round. */
  lemma AllowedExactly(d: real, s: State, l: Label)
    requires d >= 0.0 && Inv(d, s) && Timely(d, s) && Enabled(s, l)
    ensures StaysAlive(d, Next(s, l)) <==> Allowed(s, l)
  {
    if Allowed(s, l) {
      InvStep(d, s, l);
      forall run | Runs(Next(s, l), run) && Disciplined(d, Next(s, l), run) ensures KeysAlive(After(Next(s, l), run)) {
        InvRun(d, Next(s, l), run);
        InvAlive(d, After(Next(s, l), run));
      }
    } else {
      OverlapLosesKey(d, s, l.conv, l.socket, l.lock);
      assert !KeysAlive(After(Next(s, l), [Register(l.conv), Unregister(l.conv)]));
    }
  }

  // ----- the bounds are tight

  /** As Timely, but with EXPIREs landing within e, and with 180 - d itself allowed. */
  predicate Late(d: real, e: real, s: State) {
    && s.clock + d <= s.swept + 180.0
    && forall c | c in s.unrefreshed :: s.clock <= s.unrefreshed[c] + e
  }

  ghost predicate LateRun(d: real, e: real, s: State, run: seq<Label>)
    requires Runs(s, run)
    decreases |run|
  {
    Late(d, e, s) && (run != [] ==> Allowed(s, run[0]) && LateRun(d, e, Next(s, run[0]), run[1..]))
  }

  lemma {:induction false} Extend(d: real, e: real, s: State, run: seq<Label>, l: Label)
    requires Runs(s, run) && LateRun(d, e, s, run)
    requires Enabled(After(s, run), l) && Allowed(After(s, run), l) && Late(d, e, Next(After(s, run), l))
    ensures Runs(s, run + [l]) && After(s, run + [l]) == Next(After(s, run), l) && LateRun(d, e, s, run + [l])
    decreases |run|
  {
    if run == [] {
      var t := Next(s, l);
      assert [] + [l] == [l] && [l][1..] == [] && Runs(t, []) && LateRun(d, e, t, []);
    } else {
      assert (run + [l])[1..] == run[1..] + [l];
      Extend(d, e, Next(s, run[0]), run[1..], l);
    }
  }

  ghost predicate Comes(d: real, e: real, start: real, t: State) {
    exists run :: Runs(Init(start), run) && LateRun(d, e, Init(start), run) && After(Init(start), run) == t
  }

  lemma Goes(d: real, e: real, start: real, t: State, l: Label)
    requires Comes(d, e, start, t) && Enabled(t, l) && Allowed(t, l) && Late(d, e, Next(t, l))
    ensures Comes(d, e, start, Next(t, l))
  {
    var run :| Runs(Init(start), run) && LateRun(d, e, Init(start), run) && After(Init(start), run) == t;
    Extend(d, e, Init(start), run, l);
  }

  /** One connection, its key set once; swept just now, with nobody stale. */
  ghost predicate Kept(s: State, c: Conv, start: real) {
    && s.sweep.None? && s.swept == s.clock && c in s.registered && s.registry == map[c := start + 300.0]
    && s.lastSeen.Keys == {c} && s.clock <= s.lastSeen[c] + 120.0 && s.unrefreshed.Keys <= {c}
  }

  lemma ConnectedOnce(d: real, e: real, c: Conv, start: real) returns (s: State)
    requires 0.0 <= d < 180.0
    ensures Comes(d, e, start, s) && Kept(s, c, start)
    ensures s.clock == start && s.lastSeen[c] == start && s.unrefreshed == map[]
  {
    s := Init(start);
    assert Runs(s, []) && LateRun(d, e, s, []) && After(s, []) == s;
    Goes(d, e, start, s, Accept(c, 0, 0));
    s := Next(s, Accept(c, 0, 0));
    Goes(d, e, start, s, Register(c));
    s := Next(s, Register(c));
  }

  lemma SweepNow(d: real, e: real, c: Conv, start: real, s: State) returns (t: State)
    requires d < 180.0 && Comes(d, e, start, s) && Late(d, e, s)
    requires s.sweep.None? && s.lastSeen.Keys == {c} && s.clock <= s.lastSeen[c] + 120.0
    ensures Comes(d, e, start, t) && t == s.(swept := s.clock)
  {
    assert Stale(s) == {};
    Goes(d, e, start, s, SweepRead);
    t := Next(s, SweepRead);
    Goes(d, e, start, t, SweepDone);
    t := Next(t, SweepDone);
  }

  /** Time passes, a moment at most hop long, and a sweep looks at its end; with a heartbeat just
      before it or without. */
  lemma Hop(d: real, e: real, c: Conv, start: real, s: State, to: real, beat: bool) returns (t: State)
    requires 0.0 <= d < 180.0
    requires Comes(d, e, start, s) && Kept(s, c, start)
    requires s.clock <= to && to + d <= s.clock + 180.0
    requires if beat then c in s.unrefreshed else to <= s.lastSeen[c] + 120.0
    requires c in s.unrefreshed ==> to <= s.unrefreshed[c] + e
    ensures Comes(d, e, start, t) && Kept(t, c, start) && t.clock == to && t.unrefreshed == s.unrefreshed
    ensures !beat ==> t.lastSeen == s.lastSeen
  {
    Goes(d, e, start, s, Tick(to));
    t := Next(s, Tick(to));
    if beat {
      Goes(d, e, start, t, Heartbeat(c));
      t := Next(t, Heartbeat(c));
    }
    t := SweepNow(d, e, c, start, t);
  }

  /** Any length of time, in n hops. */
  lemma {:induction false} KeptUntil(d: real, e: real, c: Conv, start: real, s: State, to: real, n: nat, beat: bool)
    returns (t: State)
    requires 0.0 <= d < 180.0
    requires Comes(d, e, start, s) && Kept(s, c, start)
    requires s.clock <= to <= s.clock + n as real * (180.0 - d)
    requires if beat then c in s.unrefreshed else to <= s.lastSeen[c] + 120.0
    requires c in s.unrefreshed ==> to <= s.unrefreshed[c] + e
    ensures Comes(d, e, start, t) && Kept(t, c, start) && t.clock == to && t.unrefreshed == s.unrefreshed
    decreases n
  {
    var hop := 180.0 - d;
    if to <= s.clock + hop {
      t := Hop(d, e, c, start, s, to, beat);
    } else {
      OneLess(n, hop);
      t := Hop(d, e, c, start, s, s.clock + hop, beat);
      t := KeptUntil(d, e, c, start, t, to, n - 1, beat);
    }
  }

  lemma OneLess(n: nat, hop: real)
    ensures n > 0 ==> n as real * hop == (n - 1) as real * hop + hop
  {
  }

  lemma Hops(hop: real, length: real) returns (n: nat)
    requires hop > 0.0 && length >= 0.0
    ensures n as real * hop >= length
  {
    n := (length / hop).Floor + 1;
    assert n as real >= length / hop;
    assert length / hop * hop == length;
  }

  /** A sweep that looks 120 s after the connect leaves the connection alone; a heartbeat 180 - d later
      finds its key with d left. */
  lemma LosesKey(d: real, e: real, c: Conv, start: real) returns (t: State)
    requires 0.0 <= d <= e && d < 180.0
    ensures Comes(d, e, start, t) && !KeysAlive(t)
  {
    var n := Hops(180.0 - d, 300.0);
    t := ConnectedOnce(d, e, c, start);
    t := KeptUntil(d, e, c, start, t, start + 120.0, n, false);
    Goes(d, e, start, t, Tick(start + 300.0 - d));
    t := Next(t, Tick(start + 300.0 - d));
    Goes(d, e, start, t, Heartbeat(c));
    t := Next(t, Heartbeat(c));
    t := SweepNow(d, e, c, start, t);
    t := KeptUntil(d, e, c, start, t, start + 300.0, n, true);
  }

  /** The bound on the sweeps is tight: with 180 - d itself allowed, some run of allowed steps in
      which every EXPIRE lands within d loses a key. */
  lemma LateSweepLosesKey(d: real, c: Conv, start: real)
    requires 0.0 <= d < 180.0
    ensures exists t :: Comes(d, d, start, t) && !KeysAlive(t)
  {
    var t := LosesKey(d, d, c, start);
  }

  /** The bound on the EXPIREs is tight: if they may take any longer than d, some run of allowed steps
      swept more often than the demand asks loses a key. */
  lemma LateRefreshLosesKey(d: real, e: real, c: Conv, start: real)
    requires 0.0 <= d < e && d < 180.0
    ensures exists d', t :: d < d' && Comes(d', e, start, t) && !KeysAlive(t)
  {
    var limit := if e < 180.0 then e else 180.0;
    var d' := (d + limit) / 2.0;
    var t := LosesKey(d', e, c, start);
  }
}
