/** Whom the router serves, and with how many slots: what its choices come to, in terms of the keys. */
module AgentService {
  import opened Options
  import opened SortedSets
  import opened RedisSets
  import opened Skills
  import opened AgentRouting

  // ----- one route

  lemma RoomIs(s: Store, skill: string, a: string)
    requires CommaFree(skill)
    ensures Eligible(s, skill, a) <==>
            && a in s.pool && a in s.online && 0 <= s.pool[a] < (if a in s.meta then s.meta[a].maxChats else 5)
            && (skill == "" || skill in Split(if a in s.meta then s.meta[a].skills else ""))
  {
    if skill != "" {
      SearchMatchesReadBack(if a in s.meta then s.meta[a].skills else "", skill);
    }
  }

  /** A route without a required skill finds an agent exactly when somebody in the pool is online with a
      score from 0 up to below the agent's limit, which is 5 where none is stored. */
  lemma AnyoneServes(s: Store)
    ensures Choice(s, "").Some? <==>
            exists a :: a in s.pool && a in s.online
                        && 0 <= s.pool[a] < (if a in s.meta then s.meta[a].maxChats else 5)
  {
    forall a ensures Eligible(s, "", a) <==>
                     a in s.pool && a in s.online && 0 <= s.pool[a] < (if a in s.meta then s.meta[a].maxChats else 5)
    {
      RoomIs(s, "", a);
    }
  }

  /** With a comma-free skill, exactly when such an agent has it in the list of skills that was stored. */
  lemma SkilledServes(s: Store, skill: string)
    requires CommaFree(skill) && skill != ""
    ensures Choice(s, skill).Some? <==>
            exists a :: a in s.pool && a in s.online && a in s.meta && 0 <= s.pool[a] < s.meta[a].maxChats
                        && skill in Split(s.meta[a].skills)
  {
    forall a ensures Eligible(s, skill, a) <==>
                     a in s.pool && a in s.online && a in s.meta && 0 <= s.pool[a] < s.meta[a].maxChats
                     && skill in Split(s.meta[a].skills)
    {
      RoomIs(s, skill, a);
      assert Split("") == [""];
    }
  }

  /** The least loaded of them is taken, of equally loaded ones the least in byte order. */
  lemma LeastLoadedServes(s: Store, a: string, b: string)
    requires Choice(s, "") == Some(a)
    requires b in s.pool && b in s.online && 0 <= s.pool[b] < (if b in s.meta then s.meta[b].maxChats else 5)
    ensures a in s.pool && (s.pool[a] < s.pool[b] || (s.pool[a] == s.pool[b] && (a == b || LexLess(a, b))))
  {
    RoomIs(s, "", b);
    assert Best(s, "", a);
  }

  /** What a route does: the agent found gets one slot more and this chat, the chat this agent; dropped from
      the pool are offline agents with a score of at least 0, all of them if nobody is found, else those
      before the agent found; all else stays. */
  lemma RouteDoes(s: Store, c: string, skill: string)
    ensures var t, r := Next(s, Route(c, skill)), Choice(s, skill);
            && t.online == s.online && t.meta == s.meta
            && t.active == (if r.Some? then s.active[c := r.value] else s.active)
            && (forall k :: Members(t.chats, k) == Members(s.chats, k) + if r == Some(k) then {c} else {})
            && (r.Some? ==> r.value in s.pool && r.value in t.pool && t.pool[r.value] == s.pool[r.value] + 1)
            && (forall b | b in t.pool && r != Some(b) :: b in s.pool && t.pool[b] == s.pool[b])
            && (forall b | b in s.pool && r != Some(b) ::
                  b in t.pool <==>
                  || b in s.online || s.pool[b] < 0
                  || (r.Some? && (s.pool[r.value] < s.pool[b]
                                  || (s.pool[r.value] == s.pool[b] && LexLess(r.value, b)))))
  {
    var r := Choice(s, skill);
    if r.Some? {
      assert Best(s, skill, r.value);
      forall b | b in s.pool && b != r.value
        ensures Before(s.pool, b, r.value) <==> !Before(s.pool, r.value, b) {
        BeforeTotal(s.pool, b, r.value);
      }
    }
  }

  // ----- many routes

  /** What an agent can still take. */
  function Slots(s: Store, a: string): nat {
    if a in s.pool && a in s.online && 0 <= s.pool[a] < (if a in s.meta then s.meta[a].maxChats else 5)
    then (if a in s.meta then s.meta[a].maxChats else 5) - s.pool[a] else 0
  }

  ghost function FreeSlots(s: Store, agents: set<string>): nat {
    if agents == {} then 0
    else var a := Pick(agents); Slots(s, a) + FreeSlots(s, agents - {a})
  }

  lemma {:induction false} SameSlots(s: Store, t: Store, agents: set<string>)
    requires forall a | a in agents :: Slots(s, a) == Slots(t, a)
    ensures FreeSlots(s, agents) == FreeSlots(t, agents)
    decreases |agents|
  {
    if agents != {} { SameSlots(s, t, agents - {Pick(agents)}); }
  }

  lemma {:induction false} OneSlotLess(s: Store, t: Store, agents: set<string>, a: string)
    requires a in agents && Slots(s, a) == Slots(t, a) + 1
    requires forall b | b in agents && b != a :: Slots(s, b) == Slots(t, b)
    ensures FreeSlots(s, agents) == FreeSlots(t, agents) + 1
    decreases |agents|
  {
    var b := Pick(agents);
    if b == a { SameSlots(s, t, agents - {a}); } else { OneSlotLess(s, t, agents - {b}, a); }
  }

  lemma {:induction false} SomeSlot(s: Store, agents: set<string>)
    ensures FreeSlots(s, agents) > 0 <==> exists a :: a in agents && Slots(s, a) > 0
    decreases |agents|
  {
    if agents != {} { SomeSlot(s, agents - {Pick(agents)}); }
  }

  function Routes(convs: seq<string>): seq<Label> {
    seq(|convs|, i requires 0 <= i < |convs| => Route(convs[i], ""))
  }

  /** One route takes one of the free slots, if there is any. */
  lemma RouteTakesOne(s: Store, c: string, agents: set<string>)
    requires s.pool.Keys <= agents
    ensures Choice(s, "").Some? <==> FreeSlots(s, agents) > 0
    ensures var t := Next(s, Route(c, ""));
            && t.pool.Keys <= agents
            && FreeSlots(t, agents) == if FreeSlots(s, agents) > 0 then FreeSlots(s, agents) - 1 else 0
  {
    var t, r := Next(s, Route(c, "")), Choice(s, "");
    AnyoneServes(s);
    SomeSlot(s, agents);
    RouteDoes(s, c, "");
    assert Choice(s, "").Some? <==> exists a :: a in agents && Slots(s, a) > 0;
    if r.Some? {
      RoomIs(s, "", r.value);
      assert Best(s, "", r.value);
      OneSlotLess(s, t, agents, r.value);
    } else {
      SameSlots(s, t, agents);
    }
  }

  /** Of any routes in a row, exactly the first as many find an agent as slots are free. */
  lemma {:induction false} AllSlotsServe(s: Store, convs: seq<string>, agents: set<string>, i: nat)
    requires s.pool.Keys <= agents && i <= |convs|
    ensures var t := After(s, Routes(convs[..i]));
            && t.pool.Keys <= agents
            && FreeSlots(t, agents) == (if i < FreeSlots(s, agents) then FreeSlots(s, agents) - i else 0)
            && (Choice(t, "").Some? <==> i < FreeSlots(s, agents))
    decreases i
  {
    if i == 0 {
      assert Routes(convs[..0]) == [];
      RouteTakesOne(s, "", agents);
    } else {
      var t := After(s, Routes(convs[..i - 1]));
      AllSlotsServe(s, convs, agents, i - 1);
      RouteTakesOne(t, convs[i - 1], agents);
      assert Routes(convs[..i]) == Routes(convs[..i - 1]) + [Route(convs[i - 1], "")];
      AfterAppend(s, Routes(convs[..i - 1]), Route(convs[i - 1], ""));
      RouteTakesOne(After(s, Routes(convs[..i])), "", agents);
    }
  }

  lemma {:induction false} AfterAppend(s: Store, run: seq<Label>, l: Label)
    ensures After(s, run + [l]) == Next(After(s, run), l)
    decreases |run|
  {
    if run == [] {
      assert [] + [l] == [l] && [l][1..] == [];
    } else {
      assert (run + [l])[1..] == run[1..] + [l];
      AfterAppend(Next(s, run[0]), run[1..], l);
    }
  }

  /** So an agent that logs in with limit n serves n chats and not one more. */
  lemma LoginServesLimit(a: string, n: nat, skills: seq<string>, convs: seq<string>, i: nat)
    requires i <= |convs|
    ensures var s := Next(EMPTY, GoOnline(a, n, skills));
            Choice(After(s, Routes(convs[..i])), "") == if i < n then Some(a) else None
  {
    var s := Next(EMPTY, GoOnline(a, n, skills));
    assert s.pool.Keys == {a} && Pick({a}) == a && {a} - {a} == {};
    assert FreeSlots(s, {a}) == Slots(s, a) + FreeSlots(s, {}) == n;
    AllSlotsServe(s, convs, {a}, i);
    var t := After(s, Routes(convs[..i]));
    if i < n { assert Best(t, "", Choice(t, "").value); }
  }

  // ----- logins, heartbeats, logouts and expiries

  predicate IsLifecycle(l: Label) { l.GoOnline? || l.Heartbeat? || l.GoOffline? || l.Expire? }

  /** The last of these for the agent. */
  function LastLifecycle(run: seq<Label>, a: string): Option<Label>
    decreases |run|
  {
    if run == [] then None
    else
      var later := LastLifecycle(run[1..], a);
      if later.Some? then later else if IsLifecycle(run[0]) && run[0].agent == a then Some(run[0]) else None
  }

  /** The agent's last login. */
  function LastLogin(run: seq<Label>, a: string): Option<Label>
    decreases |run|
  {
    if run == [] then None
    else
      var later := LastLogin(run[1..], a);
      if later.Some? then later else if run[0].GoOnline? && run[0].agent == a then Some(run[0]) else None
  }

  /** After any commands whatever, an agent is online if and only if the last login, heartbeat, logout or
      expiry of that agent is a login or a heartbeat, and its limit and skills are those of its last
      login. */
  lemma {:induction false} LastOneCounts(s: Store, run: seq<Label>, a: string)
    ensures var t, last, login := After(s, run), LastLifecycle(run, a), LastLogin(run, a);
            && (a in t.online <==>
                if last.Some? then last.value.GoOnline? || last.value.Heartbeat? else a in s.online)
            && (login.Some? ==> login.value.GoOnline? && a in t.meta
                                && t.meta[a] == Meta(login.value.maxChats, Join(login.value.skills)))
            && (login.None? ==> (a in t.meta <==> a in s.meta) && (a in s.meta ==> t.meta[a] == s.meta[a]))
    decreases |run|
  {
    if run != [] { LastOneCounts(Next(s, run[0]), run[1..], a); }
  }

  /** Only a login and a logout touch the pool, and none of them a chat. */
  lemma LifecycleLeaves(s: Store, l: Label)
    requires IsLifecycle(l)
    ensures var t := Next(s, l);
            && t.chats == s.chats && t.active == s.active
            && t.pool == if l.GoOnline? then s.pool[l.agent := 0]
                         else if l.GoOffline? then s.pool - {l.agent} else s.pool
  {
  }

  /** A release takes one slot from the agent of the active entry, in the pool or not, this chat from that
      agent's set and the entry; a chat without one is not released. */
  lemma ReleaseDoes(s: Store, c: string)
    ensures var t := Next(s, Release(c));
            if c !in s.active || s.active[c] == "" then t == s
            else
              var a := s.active[c];
              && t.online == s.online && t.meta == s.meta && t.active == s.active - {c}
              && a in t.pool && t.pool[a] == (if a in s.pool then s.pool[a] - 1 else -1)
              && t.pool.Keys == s.pool.Keys + {a} && (forall b | b in s.pool && b != a :: t.pool[b] == s.pool[b])
              && forall k :: Members(t.chats, k) == if k == a then Members(s.chats, k) - {c} else Members(s.chats, k)
  {
  }
}
