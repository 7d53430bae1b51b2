/** The online-chat tracker's Redis state: one hash for a chat and four indexes over the hashes. */
module OnlineTracking {
  import opened Options
  import opened SortedSets
  import opened RedisSets

  const TICKS_PER_SECOND := 1_000_000   // clock readings are whole microseconds

  /** online:chat:*; a field that was never written is None. */
  datatype Hash = Hash(
    user: Option<string>, bot: Option<string>, agent: Option<string>, server: Option<string>,
    status: Option<string>, startedAt: Option<int>, lastMsgAt: Option<int>)

  const NO_FIELDS := Hash(None, None, None, None, None, None, None)

  datatype Store = Store(
    online: set<string>,          // online:chats
    byTime: Scores,               // online:chats:by_time
    users: SetStore,              // online:chats:user:*
    agents: SetStore,             // online:chats:agent:*
    hashes: map<string, Hash>)

  const EMPTY := Store({}, map[], map[], map[], map[])

  function HashOf(s: Store, c: string): Hash {
    if c in s.hashes then s.hashes[c] else NO_FIELDS
  }

  function WentOnline(s: Store, c: string, user: string, server: string, bot: string, now: int): Store {
    var seconds := Some(now / TICKS_PER_SECOND);
    Store(s.online + {c}, s.byTime[c := now], Sadd(s.users, user, c), s.agents,
          s.hashes[c := Hash(Some(user), Some(bot), Some(""), Some(server), Some("queued"), seconds, seconds)])
  }

  function Assigned(s: Store, c: string, agent: string): Store {
    s.(hashes := s.hashes[c := HashOf(s, c).(agent := Some(agent), status := Some("active"))],
       agents := Sadd(s.agents, agent, c))
  }

  function MessageReceived(s: Store, c: string, now: int): Store {
    s.(hashes := s.hashes[c := HashOf(s, c).(lastMsgAt := Some(now / TICKS_PER_SECOND))])
  }

  function OrEmpty(x: Option<string>): string { if x.Some? then x.value else "" }

  /** Lines 97-105: the removal, for the user and agent that were read. */
  function Removed(s: Store, c: string, user: string, agent: string): Store {
    Store(s.online - {c}, s.byTime - {c},
          if user != "" then Srem(s.users, user, c) else s.users,
          if agent != "" then Srem(s.agents, agent, c) else s.agents,
          s.hashes - {c})
  }

  datatype Label =
    | GoOnline(conv: string, user: string, server: string, bot: string, now: int)
    | Assign(conv: string, agent: string)
    | Message(conv: string, now: int)
    | Commit(conv: string, user: string, agent: string)   // the second half of chat_offline
    | Offline(conv: string)                               // both halves at once

  function Next(s: Store, l: Label): Store {
    match l
    case GoOnline(c, user, server, bot, now) => WentOnline(s, c, user, server, bot, now)
    case Assign(c, agent) => Assigned(s, c, agent)
    case Message(c, now) => MessageReceived(s, c, now)
    case Commit(c, user, agent) => Removed(s, c, user, agent)
    case Offline(c) =>
      if c in s.hashes then Removed(s, c, OrEmpty(s.hashes[c].user), OrEmpty(s.hashes[c].agent)) else s
  }

  function After(s: Store, run: seq<Label>): Store
    decreases |run|
  {
    if run == [] then s else After(Next(s, run[0]), run[1..])
  }

  // ----- agreement of the indexes, under every interleaving

  /** The two lists of online chats agree, each online chat has a hash, no hash is empty, and a hash
      that names a user or an agent is in that one's set. */
  ghost predicate Agree(s: Store) {
    && s.online == s.byTime.Keys
    && s.online <= s.hashes.Keys
    && (forall c | c in s.hashes :: s.hashes[c] != NO_FIELDS)
    && (forall c | c in s.hashes && s.hashes[c].user.Some? :: c in Members(s.users, s.hashes[c].user.value))
    && (forall c | c in s.hashes && s.hashes[c].agent.Some? && s.hashes[c].agent.value != "" ::
          c in Members(s.agents, s.hashes[c].agent.value))
  }

  lemma AgreeStep(s: Store, l: Label)
    requires Agree(s)
    ensures Agree(Next(s, l))
  {
    match l
    case Commit(c, user, agent) => AgreeRemoved(s, c, user, agent);
    case Offline(c) =>
      if c in s.hashes { AgreeRemoved(s, c, OrEmpty(s.hashes[c].user), OrEmpty(s.hashes[c].agent)); }
    case GoOnline(_, _, _, _, _) => AgreeOnline(s, l);
    case _ => AgreeUpdated(s, l);
  }

  lemma AgreeOnline(s: Store, l: Label)
    requires Agree(s) && l.GoOnline?
    ensures Agree(Next(s, l))
  {
  }

  lemma AgreeUpdated(s: Store, l: Label)
    requires Agree(s) && (l.Assign? || l.Message?)
    ensures Agree(Next(s, l))
  {
    var t := Next(s, l);
    assert forall c | c != l.conv && c in t.hashes :: c in s.hashes && t.hashes[c] == s.hashes[c];
  }

  lemma AgreeRemoved(s: Store, c: string, user: string, agent: string)
    requires Agree(s)
    ensures Agree(Removed(s, c, user, agent))
  {
  }

  /** Whatever the order of events, duplicates and removals that act on an outdated read included. */
  lemma {:induction false} AgreeAlways(s: Store, run: seq<Label>)
    requires Agree(s)
    ensures Agree(After(s, run))
    decreases |run|
  {
    if run != [] {
      AgreeStep(s, run[0]);
      AgreeAlways(Next(s, run[0]), run[1..]);
    }
  }

  // ----- exact indexes, under a lifecycle discipline

  ghost function OfUser(s: Store, user: string): set<string> {
    set c | c in s.hashes && s.hashes[c].user == Some(user)
  }

  ghost function OfAgent(s: Store, agent: string): set<string> {
    set c | c in s.hashes && s.hashes[c].agent == Some(agent)
  }

  ghost predicate UsersExact(s: Store) { forall u :: Members(s.users, u) == OfUser(s, u) }

  ghost predicate AgentsExact(s: Store) {
    forall a :: Members(s.agents, a) == if a == "" then {} else OfAgent(s, a)
  }

  ghost predicate ListsExact(s: Store) {
    && s.online == s.byTime.Keys == s.hashes.Keys
    && forall c | c in s.hashes :: s.hashes[c].user.Some? && s.hashes[c].user.value != "" && s.hashes[c].agent.Some?
  }

  /** Each index is the inverse image of the hashes. */
  ghost predicate Exact(s: Store) { UsersExact(s) && AgentsExact(s) && ListsExact(s) }

  predicate Unassigned(h: Hash) { h.agent == Some("") }

  /** What to check before an event to know that the indexes stay exact. */
  predicate Allowed(s: Store, l: Label) {
    match l
    case GoOnline(c, user, _, _, _) =>
      user != "" && (c in s.hashes ==> s.hashes[c].user == Some(user) && Unassigned(s.hashes[c]))
    case Assign(c, agent) =>
      agent != "" && c in s.hashes && (Unassigned(s.hashes[c]) || s.hashes[c].agent == Some(agent))
    case Message(c, _) => c in s.hashes
    case Commit(c, user, agent) =>
      c in s.hashes ==> s.hashes[c].user == Some(user) && (Unassigned(s.hashes[c]) || s.hashes[c].agent == Some(agent))
    case Offline(_) => true
  }

  lemma StrayInUsers(s: Store, u: string, c: string)
    requires c in Members(s.users, u) && !(c in s.hashes && s.hashes[c].user == Some(u))
    ensures !Exact(s)
  {
    assert c !in OfUser(s, u);
  }

  lemma StrayInAgents(s: Store, a: string, c: string)
    requires c in Members(s.agents, a) && (a == "" || !(c in s.hashes && s.hashes[c].agent == Some(a)))
    ensures !Exact(s)
  {
    assert c !in OfAgent(s, a) || a == "";
  }

  lemma InItsSets(s: Store, c: string)
    requires Exact(s)
    ensures c in s.hashes ==> c in Members(s.users, s.hashes[c].user.value)
    ensures c in s.hashes && !Unassigned(s.hashes[c]) ==> c in Members(s.agents, s.hashes[c].agent.value)
    ensures c !in s.hashes ==> forall k :: c !in Members(s.users, k) && c !in Members(s.agents, k)
  {
    if c in s.hashes {
      assert c in OfUser(s, s.hashes[c].user.value);
      assert c in OfAgent(s, s.hashes[c].agent.value);
    } else {
      assert forall k :: c !in OfUser(s, k) && c !in OfAgent(s, k);
    }
  }

  lemma OnlineJoins(s: Store, l: Label, k: string)
    requires l.GoOnline? && (l.conv in s.hashes ==> s.hashes[l.conv].user == Some(l.user))
    ensures OfUser(Next(s, l), k) == if k == l.user then OfUser(s, k) + {l.conv} else OfUser(s, k)
    ensures k != "" && (l.conv in s.hashes ==> Unassigned(s.hashes[l.conv])) ==> OfAgent(Next(s, l), k) == OfAgent(s, k)
  {
  }

  lemma ExactOnlineAllowed(s: Store, l: Label)
    requires Exact(s) && l.GoOnline? && Allowed(s, l)
    ensures Exact(Next(s, l))
  {
    var t := Next(s, l);
    forall k ensures Members(t.users, k) == OfUser(t, k) {
      OnlineJoins(s, l, k);
      assert Members(s.users, k) == OfUser(s, k);
    }
    forall k | k != "" ensures Members(t.agents, k) == OfAgent(t, k) {
      OnlineJoins(s, l, k);
      assert Members(s.agents, k) == OfAgent(s, k);
    }
  }

  lemma ExactOnline(s: Store, l: Label)
    requires Exact(s) && l.GoOnline?
    ensures Exact(Next(s, l)) <==> Allowed(s, l)
  {
    var t, c := Next(s, l), l.conv;
    if Allowed(s, l) {
      ExactOnlineAllowed(s, l);
    } else {
      InItsSets(s, c);
      assert t.hashes[c].user == Some(l.user);
      if l.user != "" {
        if s.hashes[c].user != Some(l.user) {
          StrayInUsers(t, s.hashes[c].user.value, c);
        } else {
          StrayInAgents(t, s.hashes[c].agent.value, c);
        }
      }
    }
  }

  lemma ExactAssign(s: Store, l: Label)
    requires Exact(s) && l.Assign?
    ensures Exact(Next(s, l)) <==> Allowed(s, l)
  {
    var t, c := Next(s, l), l.conv;
    InItsSets(s, c);
    assert t.hashes[c].agent == Some(l.agent);
    if Allowed(s, l) {
      forall u ensures OfUser(t, u) == OfUser(s, u) {
      }
      forall a | a != "" ensures Members(t.agents, a) == OfAgent(t, a) {
        assert OfAgent(t, a) == if a == l.agent then OfAgent(s, a) + {c} else OfAgent(s, a);
      }
    } else if l.agent == "" {
      StrayInAgents(t, "", c);
    } else if c in s.hashes {
      StrayInAgents(t, s.hashes[c].agent.value, c);
    } else {
      assert t.hashes[c].user.None?;
    }
  }

  lemma ExactCommitAllowed(s: Store, l: Label)
    requires Exact(s) && l.Commit? && Allowed(s, l)
    ensures Exact(Next(s, l))
  {
    var t := Next(s, l);
    forall k ensures Members(t.users, k) == OfUser(t, k) {
      CommitUsers(s, l, k);
    }
    forall k ensures Members(t.agents, k) == if k == "" then {} else OfAgent(t, k) {
      CommitAgents(s, l, k);
    }
  }

  lemma CommitUsers(s: Store, l: Label, k: string)
    requires Exact(s) && l.Commit? && Allowed(s, l)
    ensures Members(Next(s, l).users, k) == OfUser(Next(s, l), k)
  {
    InItsSets(s, l.conv);
    OthersStay(s, l, k);
    assert Members(s.users, k) == OfUser(s, k);
  }

  lemma CommitAgents(s: Store, l: Label, k: string)
    requires Exact(s) && l.Commit? && Allowed(s, l)
    ensures Members(Next(s, l).agents, k) == if k == "" then {} else OfAgent(Next(s, l), k)
  {
    InItsSets(s, l.conv);
    OthersStay(s, l, k);
    assert Members(s.agents, k) == if k == "" then {} else OfAgent(s, k);
  }

  lemma OthersStay(s: Store, l: Label, k: string)
    requires l.Commit?
    ensures OfUser(Next(s, l), k) == OfUser(s, k) - {l.conv}
    ensures OfAgent(Next(s, l), k) == OfAgent(s, k) - {l.conv}
  {
  }

  lemma ExactCommit(s: Store, l: Label)
    requires Exact(s) && l.Commit?
    ensures Exact(Next(s, l)) <==> Allowed(s, l)
  {
    var t, c := Next(s, l), l.conv;
    if Allowed(s, l) {
      ExactCommitAllowed(s, l);
    } else {
      InItsSets(s, c);
      if s.hashes[c].user != Some(l.user) {
        StrayInUsers(t, s.hashes[c].user.value, c);
      } else {
        StrayInAgents(t, s.hashes[c].agent.value, c);
      }
    }
  }

  lemma ExactMessage(s: Store, l: Label)
    requires Exact(s) && l.Message?
    ensures Exact(Next(s, l)) <==> Allowed(s, l)
  {
    var t := Next(s, l);
    if Allowed(s, l) {
      assert forall u :: OfUser(t, u) == OfUser(s, u) && OfAgent(t, u) == OfAgent(s, u);
    } else {
      assert t.hashes[l.conv].user.None?;
    }
  }

  /** The discipline, exactly: from exact indexes an event leads to exact indexes if and only if it
      is allowed; a removal, if and only if what was read of the chat still stands. */
  lemma ExactStep(s: Store, l: Label)
    requires Exact(s)
    ensures Exact(Next(s, l)) <==> Allowed(s, l)
  {
    match l
    case GoOnline(_, _, _, _, _) => ExactOnline(s, l);
    case Assign(_, _) => ExactAssign(s, l);
    case Message(_, _) => ExactMessage(s, l);
    case Commit(_, _, _) => ExactCommit(s, l);
    case Offline(c) =>
      if c in s.hashes {
        ExactCommit(s, Commit(c, OrEmpty(s.hashes[c].user), OrEmpty(s.hashes[c].agent)));
      }
  }

  predicate Disciplined(s: Store, run: seq<Label>)
    decreases |run|
  {
    run == [] || (Allowed(s, run[0]) && Disciplined(Next(s, run[0]), run[1..]))
  }

  lemma {:induction false} ExactRun(s: Store, run: seq<Label>)
    requires Exact(s) && Disciplined(s, run)
    ensures Exact(After(s, run))
    decreases |run|
  {
    if run != [] {
      ExactStep(s, run[0]);
      ExactRun(Next(s, run[0]), run[1..]);
    }
  }

  lemma EmptyExact()
    ensures Exact(EMPTY)
  {
    assert forall k :: Members(EMPTY.users, k) == OfUser(EMPTY, k) && Members(EMPTY.agents, k) == {};
  }

  ghost predicate Nowhere(s: Store, c: string) {
    && c !in s.online && c !in s.byTime && c !in s.hashes
    && forall k :: c !in Members(s.users, k) && c !in Members(s.agents, k)
  }

  lemma RemovedClean(s: Store, c: string)
    requires Exact(s)
    ensures var t := Next(s, Offline(c));
            |s.online| == |s.hashes| && Exact(t) && Nowhere(t, c) && t.hashes == s.hashes - {c}
  {
    ExactStep(s, Offline(c));
    InItsSets(Next(s, Offline(c)), c);
    assert |s.hashes.Keys| == |s.hashes|;
  }

  /** After a disciplined run, taking a chat offline leaves its id nowhere and every other chat's
      hash as it was, and the online count is the number of hashes. */
  lemma CleanRemoval(run: seq<Label>, c: string)
    requires Disciplined(EMPTY, run)
    ensures var s := After(EMPTY, run);
            var t := Next(s, Offline(c));
            && |s.online| == |s.hashes|
            && Exact(t) && Nowhere(t, c) && t.hashes == s.hashes - {c}
  {
    EmptyExact();
    ExactRun(EMPTY, run);
    RemovedClean(After(EMPTY, run), c);
  }

  /** A removal on an outdated read: an assignment between the read and the removal leaves the id
      behind in the agent's set. */
  lemma OutdatedReadLeavesStray(c: string, user: string, agent: string)
    requires user != "" && agent != ""
    ensures var s := After(EMPTY, [GoOnline(c, user, "", "", 0), Assign(c, agent), Commit(c, user, "")]);
            c !in s.hashes && c in Members(s.agents, agent)
  {
    var s1 := Next(EMPTY, GoOnline(c, user, "", "", 0));
    var s2 := Next(s1, Assign(c, agent));
    var run := [GoOnline(c, user, "", "", 0), Assign(c, agent), Commit(c, user, "")];
    assert run[1..] == [Assign(c, agent), Commit(c, user, "")] && run[1..][1..] == [Commit(c, user, "")];
    assert After(EMPTY, run) == After(s1, run[1..]) == After(s2, run[1..][1..]);
    assert After(s2, [Commit(c, user, "")]) == After(Next(s2, Commit(c, user, "")), [Commit(c, user, "")][1..]);
  }
}
