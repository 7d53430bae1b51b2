/** The agent router, updating its Redis keys in place. */
module AgentRouter {
  import opened Options
  import opened SortedSets
  import opened RedisSets
  import opened Skills
  import opened AgentRouting

  class Router {
    var pool: Scores
    var online: set<string>
    var meta: map<string, Meta>
    var chats: SetStore
    var active: map<string, string>

    ghost function View(): Store
      reads this
    {
      Store(pool, online, meta, chats, active)
    }

    constructor ()
      ensures View() == EMPTY
    {
      pool, online, meta, chats, active := map[], {}, map[], map[], map[];
    }

    method AgentGoOnline(agent: string, maxChats: int, skills: seq<string>)
      modifies this
      ensures View() == Next(old(View()), GoOnline(agent, maxChats, skills))
    {
      online := online + {agent};
      pool := pool[agent := 0];
      meta := meta[agent := Meta(maxChats, Join(skills))];
    }

    method AgentHeartbeat(agent: string)
      modifies this
      ensures View() == Next(old(View()), Heartbeat(agent))
    {
      online := online + {agent};
    }

    method AgentGoOffline(agent: string)
      modifies this
      ensures View() == Next(old(View()), GoOffline(agent))
    {
      online := online - {agent};
      pool := pool - {agent};
    }

    method StatusExpires(agent: string)
      modifies this
      ensures View() == Next(old(View()), Expire(agent))
    {
      online := online - {agent};
    }

    /** Line 35. */
    method RemoveFromPool(agent: string)
      modifies this
      ensures View() == WithoutMember(old(View()), agent)
    {
      pool := pool - {agent};
    }

    /** Lines 51-53: take a slot of the agent and give it to the conversation. */
    method AssignAgent(agent: string, conv: string)
      requires agent in pool
      modifies this
      ensures View() == Assign(old(View()), agent, conv)
    {
      pool := pool[agent := pool[agent] + 1];
      chats := Sadd(chats, agent, conv);
      active := active[conv := agent];
    }

    /** The routing script: scan the pool from score 0 up, dropping offline members, and take the
        first that has room and the skill. */
    method RouteToAgent(conv: string, skill: string) returns (agent: Option<string>)
      modifies this
      ensures agent == Choice(old(View()), skill)
      ensures View() == Routed(old(View()), conv, skill)
    {
      ghost var s := View();
      var scored := FromScore(pool, 0);
      var candidates := Range(scored);
      RangeListing(scored);
      var i := 0;
      while i < |candidates|
        invariant 0 <= i <= |candidates|
        invariant View() == Scanned(s, candidates[..i])
        invariant NoneEligible(s, skill, candidates[..i])
      {
        var a := candidates[i];
        ScanOne(s, skill, candidates, i);
        if a !in online {
          RemoveFromPool(a);
        } else if HasRoom(meta, a, scored[a], skill) {
          ScanStopsAtBest(s, conv, skill, candidates, i);
          AssignAgent(a, conv);
          return Some(a);
        }
        i := i + 1;
      }
      assert candidates[..i] == candidates;
      ScanFindsNone(s, conv, skill, candidates);
      return None;
    }

    /** The first half of release_agent_slot: which agent holds the conversation? */
    method ReadHolder(conv: string) returns (agent: Option<string>)
      ensures agent == Holder(View(), conv)
    {
      if conv in active && active[conv] != "" {
        return Some(active[conv]);
      }
      return None;
    }

    /** The second half, for the agent that was read. */
    method CommitRelease(conv: string, agent: string)
      modifies this
      ensures View() == Next(old(View()), Commit(conv, agent))
    {
      pool := pool[agent := (if agent in pool then pool[agent] else 0) - 1];
      chats := Srem(chats, agent, conv);
      active := active - {conv};
    }

    /** Both halves with nothing in between. */
    method ReleaseAgentSlot(conv: string)
      modifies this
      ensures View() == Next(old(View()), Release(conv))
    {
      var agent := ReadHolder(conv);
      if agent.Some? {
        CommitRelease(conv, agent.value);
      }
    }
  }

  function WithoutMember(s: Store, a: string): Store { s.(pool := s.pool - {a}) }

  ghost function Offline(s: Store, scanned: seq<string>): set<string> {
    set a | a in scanned && a !in s.online
  }

  /** The pool without the offline members scanned so far. */
  ghost function Scanned(s: Store, scanned: seq<string>): Store {
    s.(pool := s.pool - Offline(s, scanned))
  }

  ghost predicate NoneEligible(s: Store, skill: string, scanned: seq<string>) {
    forall a | a in scanned :: !Eligible(s, skill, a)
  }

  lemma ScanOne(s: Store, skill: string, candidates: seq<string>, i: nat)
    requires Listing(candidates, FromScore(s.pool, 0)) && i < |candidates|
    ensures var a := candidates[i];
            && a in s.pool && a in Scanned(s, candidates[..i]).pool && a in FromScore(s.pool, 0)
            && Scanned(s, candidates[..i + 1]) ==
               (if a in s.online then Scanned(s, candidates[..i]) else WithoutMember(Scanned(s, candidates[..i]), a))
            && (NoneEligible(s, skill, candidates[..i + 1]) <==>
                NoneEligible(s, skill, candidates[..i]) && !Eligible(s, skill, a))
  {
    var a := candidates[i];
    assert candidates[..i + 1] == candidates[..i] + [a];
    BeforeInScan(s.pool, candidates, i, a);
    BeforeTotal(s.pool, a, a);
    assert Offline(s, candidates[..i + 1]) == Offline(s, candidates[..i]) + (if a in s.online then {} else {a});
  }

  lemma ScanStopsAtBest(s: Store, conv: string, skill: string, candidates: seq<string>, i: nat)
    requires Listing(candidates, FromScore(s.pool, 0)) && i < |candidates|
    requires Eligible(s, skill, candidates[i]) && NoneEligible(s, skill, candidates[..i])
    ensures Choice(s, skill) == Some(candidates[i])
    ensures candidates[i] in Scanned(s, candidates[..i]).pool
    ensures Assign(Scanned(s, candidates[..i]), candidates[i], conv) == Routed(s, conv, skill)
  {
    var a := candidates[i];
    var z := FromScore(s.pool, 0);
    assert forall k | 0 <= k < i :: candidates[k] in candidates[..i];
    forall b | b in s.pool && Eligible(s, skill, b) && b != a ensures Before(s.pool, a, b) {
      assert b in z;
      var j :| 0 <= j < |candidates| && candidates[j] == b;
      assert Before(z, candidates[i], candidates[j]);
    }
    BestUnique(s, skill, a, Choice(s, skill).value);
    forall b ensures b in Dropped(s, skill) <==> b in Offline(s, candidates[..i]) {
      BeforeInScan(s.pool, candidates, i, b);
    }
    assert Dropped(s, skill) == Offline(s, candidates[..i]);
  }

  /** Ordered before the i-th candidate means scanned before it. */
  lemma BeforeInScan(pool: Scores, candidates: seq<string>, i: nat, b: string)
    requires Listing(candidates, FromScore(pool, 0)) && i < |candidates|
    ensures candidates[i] in pool
    ensures b in candidates[..i] <==> b in pool && pool[b] >= 0 && Before(pool, b, candidates[i])
  {
    var z := FromScore(pool, 0);
    assert forall k | 0 <= k < |candidates| :: candidates[k] in z;
    if b in z {
      var j :| 0 <= j < |candidates| && candidates[j] == b;
      BeforeTotal(pool, b, candidates[i]);
      assert i < j ==> Before(z, candidates[i], candidates[j]);
      assert j < i ==> Before(z, candidates[j], candidates[i]) && candidates[..i][j] == b;
    }
  }

  lemma ScanFindsNone(s: Store, conv: string, skill: string, candidates: seq<string>)
    requires Listing(candidates, FromScore(s.pool, 0)) && NoneEligible(s, skill, candidates)
    ensures Choice(s, skill) == None
    ensures Scanned(s, candidates) == Routed(s, conv, skill)
  {
    forall a ensures !Eligible(s, skill, a) {
      assert Eligible(s, skill, a) ==> a in FromScore(s.pool, 0);
    }
    forall b ensures b in Dropped(s, skill) <==> b in Offline(s, candidates) {
      assert b in candidates <==> b in FromScore(s.pool, 0);
    }
    assert Dropped(s, skill) == Offline(s, candidates);
  }
}
