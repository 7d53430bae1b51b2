/** The agent router's Redis state and the effect of each command batch on it. */
module AgentRouting {
  import opened Options
  import opened SortedSets
  import opened RedisSets
  import opened Skills

  const DEFAULT_MAX_CHATS := 5

  datatype Meta = Meta(maxChats: int, skills: string)

  datatype Store = Store(
    pool: Scores,                 // agent:available
    online: set<string>,          // agents whose agent:status key has not expired
    meta: map<string, Meta>,      // agent:meta:*
    chats: SetStore,              // agent:chats:*
    active: map<string, string>)  // chat:active:* -> agent_id

  const EMPTY := Store(map[], {}, map[], map[], map[])

  function Capacity(s: Store, a: string): int {
    if a in s.meta then s.meta[a].maxChats else DEFAULT_MAX_CHATS
  }

  /** Lines 38-47: is the agent below its limit, and does it have the skill? */
  predicate HasRoom(meta: map<string, Meta>, a: string, count: int, skill: string) {
    if a in meta then count < meta[a].maxChats && HasSkill(meta[a].skills, skill)
    else count < DEFAULT_MAX_CHATS && HasSkill("", skill)
  }

  predicate Eligible(s: Store, skill: string, a: string) {
    a in s.pool && s.pool[a] >= 0 && a in s.online && HasRoom(s.meta, a, s.pool[a], skill)
  }

  // ----- the choice, declared

  /** a is eligible and, by score and then by id, the first of all that are. */
  ghost predicate Best(s: Store, skill: string, a: string) {
    Eligible(s, skill, a) && forall b | b in s.pool :: Eligible(s, skill, b) && b != a ==> Before(s.pool, a, b)
  }

  lemma BestExists(s: Store, skill: string)
    ensures (exists a :: Best(s, skill, a)) <==> exists a :: Eligible(s, skill, a)
  {
    if a :| Eligible(s, skill, a) {
      var z := map b | b in s.pool && Eligible(s, skill, b) :: s.pool[b];
      assert a in z;
      FirstExists(z);
      var f :| IsFirst(z, f);
      assert forall b | b in s.pool && Eligible(s, skill, b) :: b in z;
      assert Best(s, skill, f);
    }
  }

  ghost function Choice(s: Store, skill: string): (r: Option<string>)
    ensures r.Some? ==> Best(s, skill, r.value)
    ensures r.None? <==> forall a :: !Eligible(s, skill, a)
  {
    BestExists(s, skill);
    if a :| Best(s, skill, a) then Some(a) else None
  }

  lemma BestUnique(s: Store, skill: string, a: string, b: string)
    requires Best(s, skill, a) && Best(s, skill, b)
    ensures a == b
  {
    BeforeTotal(s.pool, a, b);
  }

  /** The members the script drops: the offline ones it meets before its choice. */
  ghost function Dropped(s: Store, skill: string): set<string> {
    set a | a in s.pool && s.pool[a] >= 0 && a !in s.online
            && (Choice(s, skill).Some? ==> Before(s.pool, a, Choice(s, skill).value))
  }

  function Assign(s: Store, a: string, c: string): Store
    requires a in s.pool
  {
    s.(pool := s.pool[a := s.pool[a] + 1], chats := Sadd(s.chats, a, c), active := s.active[c := a])
  }

  ghost function Routed(s: Store, c: string, skill: string): Store {
    var s1 := s.(pool := s.pool - Dropped(s, skill));
    match Choice(s, skill)
    case None => s1
    case Some(a) => Assign(s1, a, c)
  }

  // ----- the other commands

  function GoneOnline(s: Store, a: string, maxChats: int, skills: seq<string>): Store {
    s.(online := s.online + {a}, pool := s.pool[a := 0], meta := s.meta[a := Meta(maxChats, Join(skills))])
  }

  /** Line 160: the agent recorded for the conversation; an empty id counts as none. */
  function Holder(s: Store, c: string): Option<string> {
    if c in s.active && s.active[c] != "" then Some(s.active[c]) else None
  }

  /** Lines 164-168, for the agent that was read. */
  function Committed(s: Store, c: string, a: string): Store {
    s.(pool := s.pool[a := (if a in s.pool then s.pool[a] else 0) - 1],
       chats := Srem(s.chats, a, c),
       active := s.active - {c})
  }

  /** The release as if read and commit were one step. */
  function Released(s: Store, c: string): Store {
    match Holder(s, c)
    case None => s
    case Some(a) => Committed(s, c, a)
  }

  datatype Label =
    | GoOnline(agent: string, maxChats: int, skills: seq<string>)
    | Heartbeat(agent: string)
    | GoOffline(agent: string)
    | Expire(agent: string)          // the status key reaches its 30 s TTL
    | Route(conv: string, skill: string)
    | Release(conv: string)
    | Commit(conv: string, agent: string)

  ghost function Next(s: Store, l: Label): Store {
    match l
    case GoOnline(a, n, skills) => GoneOnline(s, a, n, skills)
    case Heartbeat(a) => s.(online := s.online + {a})
    case GoOffline(a) => s.(online := s.online - {a}, pool := s.pool - {a})
    case Expire(a) => s.(online := s.online - {a})
    case Route(c, skill) => Routed(s, c, skill)
    case Release(c) => Released(s, c)
    case Commit(c, a) => Committed(s, c, a)
  }

  ghost function After(s: Store, run: seq<Label>): Store
    decreases |run|
  {
    if run == [] then s else After(Next(s, run[0]), run[1..])
  }

  // ----- capacity, over all runs

  ghost predicate WithinCapacity(s: Store) {
    && (forall a | a in s.pool :: s.pool[a] <= Capacity(s, a))
    && (forall a | a in s.meta :: s.meta[a].maxChats >= 0)
  }

  predicate NoNegativeLimit(run: seq<Label>) { forall i | 0 <= i < |run| :: run[i].GoOnline? ==> run[i].maxChats >= 0 }

  lemma CapacityStep(s: Store, l: Label)
    requires WithinCapacity(s)
    ensures WithinCapacity(Next(s, l)) <==> (l.GoOnline? ==> l.maxChats >= 0)
  {
    if l.GoOnline? {
      assert Next(s, l).meta[l.agent].maxChats == l.maxChats;
    }
  }

  /** Whatever interleaving of logins, logouts, expiries, routes and releases, doubled or stale ones
      included: no pooled agent's score exceeds its limit, as long as no login sets a negative one. */
  lemma {:induction false} CapacityNeverExceeded(s: Store, run: seq<Label>)
    requires WithinCapacity(s)
    requires NoNegativeLimit(run)
    ensures WithinCapacity(After(s, run))
    decreases |run|
  {
    if run != [] {
      CapacityStep(s, run[0]);
      CapacityNeverExceeded(Next(s, run[0]), run[1..]);
    }
  }

  // ----- exact accounting

  ghost function HeldBy(s: Store, a: string): set<string> {
    set c | c in s.active && s.active[c] == a
  }

  ghost predicate SetsAgree(s: Store) { forall a :: Members(s.chats, a) == HeldBy(s, a) }

  ghost predicate ScoresAgree(s: Store) { forall a | a in s.pool :: s.pool[a] == |HeldBy(s, a)| }

  ghost predicate HoldersPooled(s: Store) {
    forall c | c in s.active :: s.active[c] in s.pool && s.active[c] in s.online && s.active[c] != ""
  }

  /** Scores, chat sets and active entries tell the same story, and whoever holds chats is pooled
      and online. */
  ghost predicate Exact(s: Store) { SetsAgree(s) && ScoresAgree(s) && HoldersPooled(s) }

  /** What a caller can check before a command to know that accounting stays exact. */
  ghost predicate Allowed(s: Store, l: Label) {
    match l
    case GoOnline(a, _, _) => HeldBy(s, a) == {}
    case Heartbeat(_) => true
    case GoOffline(a) => HeldBy(s, a) == {}
    case Expire(a) => HeldBy(s, a) == {}
    case Route(c, skill) => Choice(s, skill).Some? ==> c !in s.active && Choice(s, skill).value != ""
    case Release(_) => true
    case Commit(c, a) => Holder(s, c) == Some(a)
  }

  /** A state where some agent's chat set is not what the active entries say. */
  lemma NotExact(s: Store, a: string, c: string)
    requires c in Members(s.chats, a) && c !in HeldBy(s, a)
    ensures !SetsAgree(s)
  {
  }

  lemma ExactAssign(s: Store, a: string, c: string)
    requires Exact(s) && a in s.pool && a in s.online
    ensures Exact(Assign(s, a, c)) <==> c !in s.active && a != ""
  {
    var t := Assign(s, a, c);
    assert t.active[c] == a;
    if c !in s.active {
      ExactAssignNew(s, a, c);
    } else if s.active[c] == a {
      assert HeldBy(t, a) == HeldBy(s, a);
    } else {
      assert c in HeldBy(s, s.active[c]);
      NotExact(t, s.active[c], c);
    }
  }

  lemma HeldAfterAssign(s: Store, a: string, c: string, b: string)
    requires a in s.pool && c !in s.active
    ensures HeldBy(Assign(s, a, c), b) == if b == a then HeldBy(s, a) + {c} else HeldBy(s, b)
    ensures c !in HeldBy(s, a)
  {
  }

  lemma SetsAfterAssign(s: Store, a: string, c: string)
    requires SetsAgree(s) && a in s.pool && c !in s.active
    ensures SetsAgree(Assign(s, a, c))
  {
    var t := Assign(s, a, c);
    forall b ensures Members(t.chats, b) == HeldBy(t, b) {
      HeldAfterAssign(s, a, c, b);
      assert Members(s.chats, b) == HeldBy(s, b);
    }
  }

  lemma ScoresAfterAssign(s: Store, a: string, c: string)
    requires ScoresAgree(s) && a in s.pool && c !in s.active
    ensures ScoresAgree(Assign(s, a, c))
  {
    var t := Assign(s, a, c);
    forall b | b in t.pool ensures t.pool[b] == |HeldBy(t, b)| {
      HeldAfterAssign(s, a, c, b);
      assert s.pool[b] == |HeldBy(s, b)|;
    }
  }

  lemma ExactAssignNew(s: Store, a: string, c: string)
    requires Exact(s) && a in s.pool && a in s.online && c !in s.active
    ensures Exact(Assign(s, a, c)) <==> a != ""
  {
    SetsAfterAssign(s, a, c);
    ScoresAfterAssign(s, a, c);
    HoldersAfterAssign(s, a, c);
  }

  lemma HoldersAfterAssign(s: Store, a: string, c: string)
    requires HoldersPooled(s) && a in s.pool && a in s.online
    ensures HoldersPooled(Assign(s, a, c)) <==> a != ""
  {
    assert Assign(s, a, c).active[c] == a;
  }

  lemma ExactRoute(s: Store, c: string, skill: string)
    requires Exact(s)
    ensures Exact(Next(s, Route(c, skill))) <==> Allowed(s, Route(c, skill))
  {
    var s1 := s.(pool := s.pool - Dropped(s, skill));
    assert forall a :: HeldBy(s1, a) == HeldBy(s, a);
    assert Exact(s1);
    if Choice(s, skill).Some? {
      ExactAssign(s1, Choice(s, skill).value, c);
    }
  }

  lemma HeldAfterCommit(s: Store, c: string, a: string, b: string)
    requires c in s.active && s.active[c] == a
    ensures HeldBy(Committed(s, c, a), b) == if b == a then HeldBy(s, a) - {c} else HeldBy(s, b)
    ensures c in HeldBy(s, a)
  {
  }

  lemma SetsAfterCommit(s: Store, c: string, a: string)
    requires SetsAgree(s) && Holder(s, c) == Some(a)
    ensures SetsAgree(Committed(s, c, a))
  {
    var t := Committed(s, c, a);
    forall b ensures Members(t.chats, b) == HeldBy(t, b) {
      HeldAfterCommit(s, c, a, b);
      assert Members(s.chats, b) == HeldBy(s, b);
    }
  }

  lemma ScoresAfterCommit(s: Store, c: string, a: string)
    requires ScoresAgree(s) && Holder(s, c) == Some(a) && a in s.pool
    ensures ScoresAgree(Committed(s, c, a))
  {
    var t := Committed(s, c, a);
    forall b | b in t.pool ensures t.pool[b] == |HeldBy(t, b)| {
      HeldAfterCommit(s, c, a, b);
      assert s.pool[b] == |HeldBy(s, b)|;
    }
  }

  lemma ExactCommitHolder(s: Store, c: string, a: string)
    requires Exact(s) && Holder(s, c) == Some(a)
    ensures Exact(Committed(s, c, a))
  {
    SetsAfterCommit(s, c, a);
    ScoresAfterCommit(s, c, a);
  }

  lemma HeldByAnother(s: Store, c: string, a: string)
    requires SetsAgree(s) && c in s.active && s.active[c] != a
    ensures !SetsAgree(Committed(s, c, a))
  {
    assert c in HeldBy(s, s.active[c]) && c in Members(s.chats, s.active[c]);
    NotExact(Committed(s, c, a), s.active[c], c);
  }

  lemma HeldByNone(s: Store, c: string, a: string)
    requires ScoresAgree(s) && c !in s.active
    ensures !ScoresAgree(Committed(s, c, a))
  {
    var t := Committed(s, c, a);
    assert HeldBy(t, a) == HeldBy(s, a);
    assert a in t.pool && t.pool[a] == if a in s.pool then |HeldBy(s, a)| - 1 else -1;
  }

  lemma OutdatedCommit(s: Store, c: string, a: string)
    requires Exact(s) && Holder(s, c) != Some(a)
    ensures !Exact(Committed(s, c, a))
  {
    if c in s.active { HeldByAnother(s, c, a); } else { HeldByNone(s, c, a); }
  }

  lemma ExactCommit(s: Store, c: string, a: string)
    requires Exact(s)
    ensures Exact(Committed(s, c, a)) <==> Holder(s, c) == Some(a)
  {
    if Holder(s, c) == Some(a) { ExactCommitHolder(s, c, a); } else { OutdatedCommit(s, c, a); }
  }

  /** The discipline, exactly: from an exact state a command leads to an exact state if and only
      if it is allowed. */
  lemma ExactStep(s: Store, l: Label)
    requires Exact(s)
    ensures Exact(Next(s, l)) <==> Allowed(s, l)
  {
    var t := Next(s, l);
    assert forall c | c in s.active :: c in HeldBy(s, s.active[c]);
    match l
    case Route(c, skill) => ExactRoute(s, c, skill);
    case Commit(c, a) => ExactCommit(s, c, a);
    case Release(c) =>
      if Holder(s, c).Some? { ExactCommit(s, c, s.active[c]); }
    case GoOnline(a, _, _) =>
      assert forall b :: HeldBy(t, b) == HeldBy(s, b);
      assert t.pool[a] == 0;
    case GoOffline(a) =>
      assert forall b :: HeldBy(t, b) == HeldBy(s, b);
      assert forall c | c in HeldBy(s, a) :: t.active[c] !in t.pool;
    case Expire(a) =>
      assert forall b :: HeldBy(t, b) == HeldBy(s, b);
      assert forall c | c in HeldBy(s, a) :: t.active[c] !in t.online;
    case Heartbeat(a) =>
      assert forall b :: HeldBy(t, b) == HeldBy(s, b);
  }

  ghost predicate Disciplined(s: Store, run: seq<Label>)
    decreases |run|
  {
    run == [] || (Allowed(s, run[0]) && Disciplined(Next(s, run[0]), run[1..]))
  }

  lemma {:induction false} ExactRun(s: Store, run: seq<Label>)
    requires Exact(s) && Disciplined(s, run)
    ensures Exact(After(s, run))
    decreases |run|
  {
    if run != [] {
      ExactStep(s, run[0]);
      ExactRun(Next(s, run[0]), run[1..]);
    }
  }

  // ----- what goes wrong otherwise

  /** Scores, chat sets and active entries tell the same story, and every active chat can be released. */
  ghost predicate Sound(s: Store) {
    SetsAgree(s) && ScoresAgree(s) && forall c | c in s.active :: Holder(s, c).Some?
  }

  /** No disciplined continuation makes them disagree. */
  ghost predicate StaysSound(s: Store) { forall run | Disciplined(s, run) :: Sound(After(s, run)) }

  lemma SoundNow(s: Store)
    ensures StaysSound(s) ==> Sound(s)
  {
    assert Disciplined(s, []) && After(s, []) == s;
  }

  lemma NotSoundAfter(s: Store, run: seq<Label>)
    requires Disciplined(s, run) && !ScoresAgree(After(s, run))
    ensures !StaysSound(s)
  {
  }

  /** A release of a chat whose agent has left the pool brings the agent back at -1. */
  lemma ReleaseBringsBack(s: Store, c: string, a: string)
    requires Holder(s, c) == Some(a) && a !in s.pool
    ensures Next(s, Release(c)).pool[a] == -1 && !ScoresAgree(Next(s, Release(c)))
  {
    var t := Next(s, Release(c));
    assert a in t.pool;
  }

  lemma OneStep(s: Store, l: Label)
    requires Allowed(s, l)
    ensures Disciplined(s, [l]) && After(s, [l]) == Next(s, l)
  {
    assert [l][1..] == [];
  }

  lemma TwoSteps(s: Store, l: Label, m: Label)
    requires Allowed(s, l) && Allowed(Next(s, l), m)
    ensures Disciplined(s, [l, m]) && After(s, [l, m]) == Next(Next(s, l), m)
  {
    OneStep(Next(s, l), m);
    assert [l, m][1..] == [m];
  }

  lemma {:induction false} LongSkill(s: Store, agents: set<string>) returns (skill: string)
    requires agents <= s.meta.Keys
    ensures skill != "" && forall a | a in agents :: |s.meta[a].skills| < |skill|
    decreases |agents|
  {
    skill := "x";
    if agents != {} {
      var a :| a in agents;
      skill := LongSkill(s, agents - {a});
      skill := skill + s.meta[a].skills;
      assert forall b | b in agents :: b == a || b in agents - {a};
    }
  }

  /** A skill nobody has: routing for it chooses no one. */
  lemma NoneHasIt(s: Store) returns (skill: string)
    ensures Choice(s, skill) == None
  {
    skill := LongSkill(s, s.meta.Keys);
    forall a ensures !Eligible(s, skill, a) {
      if a in s.meta { LongerIsNotFound(s.meta[a].skills, skill); } else { LongerIsNotFound("", skill); }
    }
  }

  /** An agent that expires with chats is dropped by a routing that passes it, and then brought back
      at -1 by the release of one of them.  The routing here is for a skill nobody has, so that it passes
      every agent whatever their loads; the one caller, consumer/handlers/transfer_to_agent.py:23, names
      no skill. */
  lemma ExpiredIsLost(s: Store, a: string, c: string)
    requires Holder(s, c) == Some(a) && a !in s.online && (a in s.pool ==> s.pool[a] >= 0)
    ensures !StaysSound(s)
  {
    var skill := NoneHasIt(s);
    var t := Next(s, Route(c, skill));
    assert a !in t.pool && Holder(t, c) == Some(a);
    TwoSteps(s, Route(c, skill), Release(c));
    ReleaseBringsBack(t, c, a);
    NotSoundAfter(s, [Route(c, skill), Release(c)]);
  }

  lemma LeftIsLost(s: Store, a: string, c: string)
    requires Holder(s, c) == Some(a) && a !in s.pool
    ensures !StaysSound(s)
  {
    OneStep(s, Release(c));
    ReleaseBringsBack(s, c, a);
    NotSoundAfter(s, [Release(c)]);
  }

  lemma BadRoute(s: Store, c: string, skill: string)
    requires Exact(s) && !Allowed(s, Route(c, skill))
    ensures !Sound(Next(s, Route(c, skill)))
  {
    var a := Choice(s, skill).value;
    var s1 := s.(pool := s.pool - Dropped(s, skill));
    var t := Assign(s1, a, c);
    assert forall b :: HeldBy(s1, b) == HeldBy(s, b);
    if c !in s.active {
      assert Holder(t, c) == None;
    } else if s.active[c] == a {
      assert HeldBy(t, a) == HeldBy(s, a);
      assert a in t.pool && t.pool[a] == |HeldBy(s, a)| + 1;
    } else {
      assert c in HeldBy(s, s.active[c]) && c in Members(t.chats, s.active[c]) && c !in HeldBy(t, s.active[c]);
    }
  }

  lemma BadLifecycle(s: Store, l: Label)
    requires Exact(s) && !Allowed(s, l) && (l.GoOnline? || l.GoOffline? || l.Expire?)
    ensures !StaysSound(Next(s, l))
  {
    var t, a := Next(s, l), l.agent;
    var c :| c in HeldBy(s, a);
    assert HeldBy(t, a) == HeldBy(s, a) && s.pool[a] == |HeldBy(s, a)|;
    match l
    case GoOnline(_, _, _) =>
      assert a in t.pool && t.pool[a] == 0;
      SoundNow(t);
    case GoOffline(_) => LeftIsLost(t, a, c);
    case Expire(_) => ExpiredIsLost(t, a, c);
  }

  /** The discipline by what it prevents: from an exact state, a command after which no disciplined
      continuation makes scores, sets and entries disagree is an allowed one, and the other way
      round. */
  lemma AllowedExactly(s: Store, l: Label)
    requires Exact(s)
    ensures StaysSound(Next(s, l)) <==> Allowed(s, l)
  {
    if Allowed(s, l) {
      ExactStep(s, l);
      forall run | Disciplined(Next(s, l), run) ensures Sound(After(Next(s, l), run)) {
        ExactRun(Next(s, l), run);
      }
    } else {
      SoundNow(Next(s, l));
      match l
      case Route(c, skill) => BadRoute(s, c, skill);
      case Commit(c, a) => if c in s.active { HeldByAnother(s, c, a); } else { HeldByNone(s, c, a); }
      case _ => BadLifecycle(s, l);
    }
  }

  // ----- the sum of capacities bounds the active chats

  ghost function Pick(agents: set<string>): string
    requires agents != {}
    ensures Pick(agents) in agents
  {
    var a :| a in agents; a
  }

  ghost function TotalCapacity(s: Store, agents: set<string>): int {
    if agents == {} then 0
    else var a := Pick(agents); Capacity(s, a) + TotalCapacity(s, agents - {a})
  }

  ghost function HeldByAny(s: Store, agents: set<string>): set<string> {
    set c | c in s.active && s.active[c] in agents
  }

  lemma {:induction false} HeldAtMostTotal(s: Store, agents: set<string>)
    requires Exact(s) && WithinCapacity(s) && agents <= s.pool.Keys
    ensures |HeldByAny(s, agents)| <= TotalCapacity(s, agents)
    decreases |agents|
  {
    if agents == {} {
      assert HeldByAny(s, agents) == {};
    } else {
      var a := Pick(agents);
      HeldAtMostTotal(s, agents - {a});
      assert HeldByAny(s, agents) == HeldByAny(s, agents - {a}) + HeldBy(s, a);
    }
  }

  /** Each pooled agent's score is the number of its chats and of the active entries naming it, agents
      share no chat, and each active chat is among its agent's. */
  ghost predicate Counted(s: Store) {
    && (forall a | a in s.pool :: s.pool[a] == |Members(s.chats, a)| == |HeldBy(s, a)|)
    && (forall a, b | a != b :: Members(s.chats, a) * Members(s.chats, b) == {})
    && (forall c | c in s.active :: c in Members(s.chats, s.active[c]))
  }

  lemma ExactIsCounted(s: Store)
    requires Exact(s)
    ensures Counted(s)
  {
    forall c | c in s.active ensures c in Members(s.chats, s.active[c]) {
      assert c in HeldBy(s, s.active[c]);
    }
  }

  /** Slot conservation.  After every disciplined run all is counted, and if no login set a negative
      limit, the active chats number at most the sum of the pooled agents' limits. */
  lemma SlotConservation(run: seq<Label>)
    requires Disciplined(EMPTY, run)
    ensures Counted(After(EMPTY, run))
    ensures NoNegativeLimit(run) ==>
              |After(EMPTY, run).active| <= TotalCapacity(After(EMPTY, run), After(EMPTY, run).pool.Keys)
  {
    var s := After(EMPTY, run);
    assert forall a :: Members(EMPTY.chats, a) == HeldBy(EMPTY, a);
    ExactRun(EMPTY, run);
    ExactIsCounted(s);
    if NoNegativeLimit(run) {
      CapacityNeverExceeded(EMPTY, run);
      HeldAtMostTotal(s, s.pool.Keys);
      assert HeldByAny(s, s.pool.Keys) == s.active.Keys;
    }
  }
}
