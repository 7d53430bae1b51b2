/** What the tracker's record of one chat says over any run of events. */
module OnlineLifecycle {
  import opened Options
  import opened SortedSets
  import opened RedisSets
  import opened OnlineTracking
  import opened OnlineChatTracker

  /** The event starts the chat's record anew or removes it. */
  predicate Resets(l: Label, c: string) { (l.GoOnline? || l.Commit? || l.Offline?) && l.conv == c }

  predicate NoneResets(run: seq<Label>, c: string) { forall i | 0 <= i < |run| :: !Resets(run[i], c) }

  function LastAssign(run: seq<Label>, c: string): Option<string>
    decreases |run|
  {
    if run == [] then None
    else
      var later := LastAssign(run[1..], c);
      if later.Some? then later else if run[0].Assign? && run[0].conv == c then Some(run[0].agent) else None
  }

  function LastMessage(run: seq<Label>, c: string): Option<int>
    decreases |run|
  {
    if run == [] then None
    else
      var later := LastMessage(run[1..], c);
      if later.Some? then later else if run[0].Message? && run[0].conv == c then Some(run[0].now) else None
  }

  /** The fields that an assignment and a message change, after a run. */
  function Later(h: Hash, run: seq<Label>, c: string): Hash {
    var agent, message := LastAssign(run, c), LastMessage(run, c);
    Hash(h.user, h.bot, if agent.Some? then agent else h.agent, h.server,
         if agent.Some? then Some("active") else h.status, h.startedAt,
         if message.Some? then Some(message.value / 1_000_000) else h.lastMsgAt)
  }

  lemma LaterOne(s: Store, l: Label, rest: seq<Label>, c: string)
    requires c in s.hashes && !Resets(l, c)
    ensures c in Next(s, l).hashes && Later(Next(s, l).hashes[c], rest, c) == Later(s.hashes[c], [l] + rest, c)
  {
    assert ([l] + rest)[1..] == rest;
  }

  lemma {:induction false} RecordKept(s: Store, run: seq<Label>, c: string)
    requires c in s.hashes && NoneResets(run, c)
    ensures c in After(s, run).hashes && After(s, run).hashes[c] == Later(s.hashes[c], run, c)
    decreases |run|
  {
    if run != [] {
      assert NoneResets(run[1..], c) && !Resets(run[0], c) && run == [run[0]] + run[1..];
      LaterOne(s, run[0], run[1..], c);
      RecordKept(Next(s, run[0]), run[1..], c);
    }
  }

  lemma {:induction false} PlacesKept(s: Store, run: seq<Label>, c: string, user: string)
    requires NoneResets(run, c) && c in s.online && c in s.byTime && c in Members(s.users, user)
    ensures var t := After(s, run);
            && c in t.online && c in t.byTime && t.byTime[c] == s.byTime[c] && c in Members(t.users, user)
    decreases |run|
  {
    if run != [] {
      assert NoneResets(run[1..], c) && !Resets(run[0], c);
      PlacesKept(Next(s, run[0]), run[1..], c, user);
    }
  }

  lemma {:induction false} AgentKept(s: Store, run: seq<Label>, c: string, agent: string)
    requires NoneResets(run, c) && (c in Members(s.agents, agent) || LastAssign(run, c) == Some(agent))
    ensures c in Members(After(s, run).agents, agent)
    decreases |run|
  {
    if run != [] {
      assert NoneResets(run[1..], c) && !Resets(run[0], c);
      AgentKept(Next(s, run[0]), run[1..], c, agent);
    }
  }

  /** From going online until it is taken off or goes online again, whatever else happens: the chat is in
      both lists, at the time it went online, and in its user's set; its record has this user, bot and
      server and that time in seconds; it is "queued" with no agent until it is assigned, then "active"
      with the agent assigned last, in whose set it is; and its last message is the last one received,
      or the start. */
  lemma RecordSince(s: Store, c: string, user: string, server: string, bot: string, now: int, run: seq<Label>)
    requires NoneResets(run, c)
    ensures var t := After(Next(s, GoOnline(c, user, server, bot, now)), run);
            var agent, message := LastAssign(run, c), LastMessage(run, c);
            && c in t.online && c in t.byTime && t.byTime[c] == now && c in Members(t.users, user)
            && (agent.Some? ==> c in Members(t.agents, agent.value))
            && c in t.hashes
            && t.hashes[c].user == Some(user) && t.hashes[c].bot == Some(bot) && t.hashes[c].server == Some(server)
            && t.hashes[c].agent == Some(if agent.Some? then agent.value else "")
            && t.hashes[c].status == Some(if agent.Some? then "active" else "queued")
            && t.hashes[c].startedAt == Some(now / 1_000_000)
            && t.hashes[c].lastMsgAt == Some((if message.Some? then message.value else now) / 1_000_000)
  {
    var s1 := Next(s, GoOnline(c, user, server, bot, now));
    RecordKept(s1, run, c);
    PlacesKept(s1, run, c, user);
    if LastAssign(run, c).Some? { AgentKept(s1, run, c, LastAssign(run, c).value); }
  }

  /** And so it is listed, once, with that record. */
  lemma ListedSince(s: Store, c: string, user: string, server: string, bot: string, now: int, run: seq<Label>,
                    newestFirst: bool)
    requires Agree(s) && NoneResets(run, c)
    ensures var t := After(Next(s, GoOnline(c, user, server, bot, now)), run);
            && c in t.hashes && Chat(c, t.hashes[c]) in Listed(t, newestFirst)
            && forall chat | chat in Listed(t, newestFirst) && chat.conv == c :: chat.hash == t.hashes[c]
  {
    var s1 := Next(s, GoOnline(c, user, server, bot, now));
    var t := After(s1, run);
    RecordSince(s, c, user, server, bot, now, run);
    AgreeStep(s, GoOnline(c, user, server, bot, now));
    AgreeAlways(s1, run);
    OrderEnumerates(t.byTime, newestFirst);
    RangeListing(t.byTime);
    var ids := Order(t.byTime, newestFirst);
    DescribedSkips(t.hashes, ids);
    DescribedFromBoth(t.hashes, ids);
    assert c in ids by { InOrder(t.byTime, newestFirst, c); }
    forall chat | chat in Listed(t, newestFirst) && chat.conv == c ensures chat.hash == t.hashes[c] {
      assert FromBoth(chat, t.hashes, ids);
    }
  }

  lemma InOrder(z: Scores, newestFirst: bool, c: string)
    requires c in z
    ensures c in Order(z, newestFirst)
  {
    RangeListing(z);
    var r := Range(z);
    var i :| 0 <= i < |r| && r[i] == c;
    assert newestFirst ==> Reverse(r)[|r| - 1 - i] == c;
  }

  predicate NoneNames(run: seq<Label>, c: string) { forall i | 0 <= i < |run| :: run[i].conv != c }

  /** Once taken off, on whatever was read, a chat of which no event follows is in neither list and has no
      record, nor is it in the sets of the user and the agent that were read. */
  lemma GoneSince(s: Store, c: string, user: string, agent: string, run: seq<Label>)
    requires NoneNames(run, c)
    ensures var t := After(Next(s, Commit(c, user, agent)), run);
            && c !in t.online && c !in t.byTime && c !in t.hashes
            && (user != "" ==> c !in Members(t.users, user)) && (agent != "" ==> c !in Members(t.agents, agent))
  {
    StaysGone(Next(s, Commit(c, user, agent)), c, user, agent, run);
  }

  lemma {:induction false} StaysGone(s: Store, c: string, user: string, agent: string, run: seq<Label>)
    requires NoneNames(run, c) && c !in s.online && c !in s.byTime && c !in s.hashes
    requires (user != "" ==> c !in Members(s.users, user)) && (agent != "" ==> c !in Members(s.agents, agent))
    ensures var t := After(s, run);
            && c !in t.online && c !in t.byTime && c !in t.hashes
            && (user != "" ==> c !in Members(t.users, user)) && (agent != "" ==> c !in Members(t.agents, agent))
    decreases |run|
  {
    if run != [] {
      assert NoneNames(run[1..], c) && run[0].conv != c;
      StaysGone(Next(s, run[0]), c, user, agent, run[1..]);
    }
  }

  /** An event of one chat leaves every other chat where it was, in every index. */
  lemma OthersUntouched(s: Store, l: Label, c: string)
    requires l.conv != c
    ensures var t := Next(s, l);
            && (c in t.online <==> c in s.online) && (c in t.byTime <==> c in s.byTime)
            && (c in s.byTime ==> t.byTime[c] == s.byTime[c])
            && (c in t.hashes <==> c in s.hashes) && (c in s.hashes ==> t.hashes[c] == s.hashes[c])
            && forall k :: (c in Members(t.users, k) <==> c in Members(s.users, k))
                           && (c in Members(t.agents, k) <==> c in Members(s.agents, k))
  {
  }

  /** The removal on what the record says: both fields are read at the instant of the removal. */
  lemma OfflineReads(s: Store, c: string)
    ensures Next(s, Offline(c)) ==
            if c !in s.hashes then s
            else Next(s, Commit(c, if s.hashes[c].user.Some? then s.hashes[c].user.value else "",
                                if s.hashes[c].agent.Some? then s.hashes[c].agent.value else ""))
  {
  }
}
