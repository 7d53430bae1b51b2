/** The admin's conversation list: the first rows of each bot's partition, merged. */
module ConversationList {
  import opened Options
  import opened Listings
  import opened SortedSets

  /** The primary key of conversations_by_bot. */
  datatype RowKey = RowKey(bot: string, startedAt: int, conv: string)

  /** conversations_by_bot: last_message_at by row. */
  type Table = map<RowKey, Option<int>>

  /** How chat_start writes it: both times are its one `now`, and no row without a bot. */
  function ChatStarted(t: Table, bot: string, conv: string, now: int): Table {
    if bot == "" then t else t[RowKey(bot, now, conv) := Some(now)]
  }

  // ----- a bot's partition, in clustering order

  /** started_at descending, then conversation_id. */
  predicate ClusterBefore(a: RowKey, b: RowKey) {
    a.startedAt > b.startedAt || (a.startedAt == b.startedAt && LexLess(a.conv, b.conv))
  }

  const CLUSTER_ORDER: Less<RowKey> := (a, b) => ClusterBefore(a, b)

  function BotKeys(t: Table, bot: string): set<RowKey> { set k | k in t && k.bot == bot }

  lemma ClusterOrderIsStrict(t: Table, bot: string)
    ensures StrictOrder(BotKeys(t, bot), CLUSTER_ORDER)
  {
    var keys := BotKeys(t, bot);
    forall a, b | a in keys && b in keys
      ensures !CLUSTER_ORDER(a, a) && (a == b || CLUSTER_ORDER(a, b) || CLUSTER_ORDER(b, a))
    {
      LexTotal(a.conv, b.conv);
    }
    forall a, b, c | a in keys && b in keys && c in keys && CLUSTER_ORDER(a, b) && CLUSTER_ORDER(b, c)
      ensures CLUSTER_ORDER(a, c)
    {
      if a.startedAt == b.startedAt == c.startedAt { LexTransitive(a.conv, b.conv, c.conv); }
    }
  }

  function Partition(t: Table, bot: string): seq<RowKey> {
    ClusterOrderIsStrict(t, bot);
    Sort(BotKeys(t, bot), CLUSTER_ORDER)
  }

  /** The rows fetched: the first limit of each bot's partition, bot after bot. */
  function Fetched(t: Table, bots: seq<string>, limit: nat): seq<RowKey> {
    if bots == [] then []
    else Fetched(t, bots[..|bots| - 1], limit) + First(Partition(t, bots[|bots| - 1]), limit)
  }

  // ----- the sort

  /** `c.last_message_at or datetime.min`, compared: a missing time is least. */
  predicate AtMost(a: Option<int>, b: Option<int>) { a.None? || (b.Some? && a.value <= b.value) }

  predicate AllIn(t: Table, r: seq<RowKey>) { forall i | 0 <= i < |r| :: r[i] in t }

  /** x goes behind all rows that are not less recent: what a stable descending sort does with the
      last of its input. */
  function Insert(t: Table, x: RowKey, r: seq<RowKey>): (s: seq<RowKey>)
    requires x in t && AllIn(t, r)
    ensures AllIn(t, s)
  {
    if r == [] then [x]
    else
      var n := |r| - 1;
      if AtMost(t[x], t[r[n]]) then r + [x] else Insert(t, x, r[..n]) + [r[n]]
  }

  predicate Descending(t: Table, r: seq<RowKey>)
    requires AllIn(t, r)
  {
    forall i, j | 0 <= i < j < |r| :: AtMost(t[r[j]], t[r[i]])
  }

  lemma {:induction false} InsertKeeps(t: Table, x: RowKey, r: seq<RowKey>)
    requires x in t && AllIn(t, r)
    ensures multiset(Insert(t, x, r)) == multiset(r) + multiset{x}
    decreases |r|
  {
    if r != [] {
      var n := |r| - 1;
      assert r == r[..n] + [r[n]];
      InsertKeeps(t, x, r[..n]);
    }
  }

  lemma AppendSorts(t: Table, r: seq<RowKey>, y: RowKey)
    requires AllIn(t, r) && Descending(t, r) && y in t && forall i | 0 <= i < |r| :: AtMost(t[y], t[r[i]])
    ensures AllIn(t, r + [y]) && Descending(t, r + [y])
  {
  }

  lemma {:induction false} InsertSorts(t: Table, x: RowKey, r: seq<RowKey>)
    requires x in t && AllIn(t, r) && Descending(t, r)
    ensures AllIn(t, Insert(t, x, r)) && Descending(t, Insert(t, x, r))
    decreases |r|
  {
    if r != [] {
      var n := |r| - 1;
      if AtMost(t[x], t[r[n]]) {
        AppendSorts(t, r, x);
      } else {
        InsertSorts(t, x, r[..n]);
        InsertBound(t, x, r[..n], r[n]);
        AppendSorts(t, Insert(t, x, r[..n]), r[n]);
      }
    }
  }

  /** What is inserted into is bounded below by what bounds both. */
  lemma {:induction false} InsertBound(t: Table, x: RowKey, r: seq<RowKey>, y: RowKey)
    requires x in t && y in t && AllIn(t, r) && AtMost(t[y], t[x])
    requires forall i | 0 <= i < |r| :: AtMost(t[y], t[r[i]])
    ensures forall i | 0 <= i < |Insert(t, x, r)| :: Insert(t, x, r)[i] in t && AtMost(t[y], t[Insert(t, x, r)[i]])
    decreases |r|
  {
    if r != [] { InsertBound(t, x, r[..|r| - 1], y); }
  }

  /** The rows of one recency, in their order. */
  function OfTime(t: Table, r: seq<RowKey>, time: Option<int>): seq<RowKey>
    requires AllIn(t, r)
  {
    if r == [] then []
    else
      var n := |r| - 1;
      OfTime(t, r[..n], time) + if t[r[n]] == time then [r[n]] else []
  }

  lemma OfTimeAppend(t: Table, r: seq<RowKey>, x: RowKey, time: Option<int>)
    requires AllIn(t, r) && x in t
    ensures AllIn(t, r + [x])
    ensures OfTime(t, r + [x], time) == OfTime(t, r, time) + if t[x] == time then [x] else []
  {
    assert (r + [x])[..|r|] == r;
  }

  lemma AppendStable(t: Table, x: RowKey, r: seq<RowKey>, y: RowKey, front: seq<RowKey>, time: Option<int>)
    requires x in t && y in t && !AtMost(t[x], t[y]) && AllIn(t, r) && AllIn(t, front)
    requires OfTime(t, front, time) == OfTime(t, r, time) + if t[x] == time then [x] else []
    ensures AllIn(t, r + [y]) && AllIn(t, front + [y])
    ensures OfTime(t, front + [y], time) == OfTime(t, r + [y], time) + if t[x] == time then [x] else []
  {
    OfTimeAppend(t, front, y, time);
    OfTimeAppend(t, r, y, time);
  }

  /** Inserting puts a row behind all others as recent. */
  lemma {:induction false} InsertStable(t: Table, x: RowKey, r: seq<RowKey>, time: Option<int>)
    requires x in t && AllIn(t, r)
    ensures OfTime(t, Insert(t, x, r), time) == OfTime(t, r, time) + if t[x] == time then [x] else []
    decreases |r|
  {
    if r == [] {
      assert [] + [x] == [x];
      OfTimeAppend(t, [], x, time);
    } else {
      var n := |r| - 1;
      if AtMost(t[x], t[r[n]]) {
        OfTimeAppend(t, r, x, time);
      } else {
        InsertStable(t, x, r[..n], time);
        AppendStable(t, x, r[..n], r[n], Insert(t, x, r[..n]), time);
        assert r == r[..n] + [r[n]];
      }
    }
  }

  /** conversations.sort(key=..., reverse=True): the same rows, most recent first, equally recent ones
      in the order they came in. */
  function SortRecent(t: Table, r: seq<RowKey>): (s: seq<RowKey>)
    requires AllIn(t, r)
    ensures multiset(s) == multiset(r) && AllIn(t, s) && Descending(t, s)
    ensures forall i, j | 0 <= i < j < |s| && t[s[j]].Some? :: t[s[i]].Some? && t[s[i]].value >= t[s[j]].value
    ensures forall time :: OfTime(t, s, time) == OfTime(t, r, time)
    decreases |r|
  {
    if r == [] then []
    else
      var n := |r| - 1;
      var s := SortRecent(t, r[..n]);
      InsertSorts(t, r[n], s);
      InsertKeeps(t, r[n], s);
      InsertStableAll(t, r[n], s);
      assert r == r[..n] + [r[n]];
      Insert(t, r[n], s)
  }

  lemma InsertStableAll(t: Table, x: RowKey, r: seq<RowKey>)
    requires x in t && AllIn(t, r)
    ensures forall time :: OfTime(t, Insert(t, x, r), time) == OfTime(t, r, time) + if t[x] == time then [x] else []
  {
    forall time ensures OfTime(t, Insert(t, x, r), time) == OfTime(t, r, time) + if t[x] == time then [x] else [] {
      InsertStable(t, x, r, time);
    }
  }

  // ----- the endpoint

  datatype Response = Forbidden | Conversations(rows: seq<RowKey>)

  lemma {:induction false} FetchedIn(t: Table, bots: seq<string>, limit: nat)
    ensures AllIn(t, Fetched(t, bots, limit))
    decreases |bots|
  {
    if bots != [] {
      var bot := bots[|bots| - 1];
      FetchedIn(t, bots[..|bots| - 1], limit);
      ClusterOrderIsStrict(t, bot);
      SortLists(BotKeys(t, bot), CLUSTER_ORDER);
      assert forall i | 0 <= i < |Partition(t, bot)| :: Partition(t, bot)[i] in Partition(t, bot);
    }
  }

  function TopRows(t: Table, bots: seq<string>, limit: nat): (r: seq<RowKey>)
    ensures AllIn(t, r)
  {
    FetchedIn(t, bots, limit);
    First(SortRecent(t, Fetched(t, bots, limit)), limit)
  }

  predicate Distinct(bots: seq<string>) { forall i, j | 0 <= i < j < |bots| :: bots[i] != bots[j] }

  /** One bot's rows. */
  function OfBot(t: Table, bot: string): Table { map k | k in t && k.bot == bot :: t[k] }

  /** What a request finds whose i-th query meets the table as at(i): of each bot, the rows of its own
      query. */
  function Seen(at: nat -> Table, bots: seq<string>): Table {
    if bots == [] then map[]
    else Seen(at, bots[..|bots| - 1]) + OfBot(at(|bots| - 1), bots[|bots| - 1])
  }

  lemma {:induction false} SeenIsRead(at: nat -> Table, bots: seq<string>, k: RowKey)
    requires Distinct(bots)
    ensures k in Seen(at, bots) ==> k.bot in bots
    ensures forall i | 0 <= i < |bots| && bots[i] == k.bot ::
              (k in Seen(at, bots) <==> k in at(i)) && (k in at(i) ==> Seen(at, bots)[k] == at(i)[k])
    decreases |bots|
  {
    if bots != [] {
      var n := |bots| - 1;
      var front := bots[..n];
      SeenIsRead(at, front, k);
      assert k in Seen(at, bots) <==> k in Seen(at, front) || k in OfBot(at(n), bots[n]);
      forall i | 0 <= i < |bots| && bots[i] == k.bot
        ensures (k in Seen(at, bots) <==> k in at(i)) && (k in at(i) ==> Seen(at, bots)[k] == at(i)[k])
      {
        if i < n {
          assert front[i] == bots[i] && bots[n] != k.bot;
        } else {
          assert k.bot !in front;
        }
      }
    }
  }

  /** A bot's partition is the one its own query found. */
  lemma SeenPartition(at: nat -> Table, bots: seq<string>, i: nat)
    requires Distinct(bots) && i < |bots|
    ensures Partition(Seen(at, bots), bots[i]) == Partition(at(i), bots[i])
  {
    forall k ensures k in BotKeys(Seen(at, bots), bots[i]) <==> k in BotKeys(at(i), bots[i]) {
      SeenIsRead(at, bots, k);
    }
    assert BotKeys(Seen(at, bots), bots[i]) == BotKeys(at(i), bots[i]);
  }

  /** Only rows of these bots are listed. */
  lemma OfTheBots(t: Table, bots: seq<string>, limit: nat)
    requires Distinct(bots)
    ensures forall k | k in TopRows(t, bots, limit) :: k.bot in bots
  {
    FetchedIn(t, bots, limit);
    FetchedFacts(t, bots, limit);
    var f := Fetched(t, bots, limit);
    var s := SortRecent(t, f);
    SamePermutation(s, f);
    forall k | k in First(s, limit) ensures k in Rows(t, bots) {
      assert k in s && k in f;
    }
  }

  /** list_conversations, for all the admin's bots, whose ids are primary keys, or for one of them.
      The i-th of its queries finds the table as at(i). */
  method ListConversations(at: nat -> Table, adminBots: seq<string>, botId: Option<string>, limit: int)
    returns (r: Response)
    requires 1 <= limit <= 200 && Distinct(adminBots)
    ensures r.Forbidden? <==> adminBots != [] && botId.Some? && botId.value != "" && botId.value !in adminBots
    ensures r.Conversations? && (botId.None? || botId.value == "") ==>
              r.rows == TopRows(Seen(at, adminBots), adminBots, limit)
    ensures r.Conversations? && botId.Some? && botId.value != "" ==>
              r.rows == if adminBots == [] then [] else TopRows(Seen(at, [botId.value]), [botId.value], limit)
    ensures r.Conversations? ==>
              forall k | k in r.rows ::
                k.bot in adminBots && (botId.Some? && botId.value != "" ==> k.bot == botId.value)
  {
    var bots := adminBots;
    if bots == [] {
      assert SortRecent(Seen(at, []), []) == [];
      return Conversations([]);
    }
    if botId.Some? && botId.value != "" {
      if botId.value !in bots {
        return Forbidden;
      }
      bots := [botId.value];
    }
    var seen := Seen(at, bots);
    var conversations := [];
    for i := 0 to |bots|
      invariant conversations == Fetched(seen, bots[..i], limit)
    {
      var rows := First(Partition(at(i), bots[i]), limit);
      SeenPartition(at, bots, i);
      conversations := conversations + rows;
      assert bots[..i + 1][..i] == bots[..i];
    }
    assert bots[..|bots|] == bots;
    FetchedIn(seen, bots, limit);
    OfTheBots(seen, bots, limit);
    conversations := SortRecent(seen, conversations);
    return Conversations(First(conversations, limit));
  }

  // ----- the result is a top limit

  /** All rows of the bots. */
  function Rows(t: Table, bots: seq<string>): set<RowKey> { set k | k in t && k.bot in bots }

  /** Within a bot, a row that comes first in the partition is at least as recent. */
  predicate RecentFollowsStart(t: Table) {
    forall a, b | a in t && b in t && a.bot == b.bot && ClusterBefore(a, b) :: AtMost(t[b], t[a])
  }

  /** The first limit rows of a bot's partition are each at least as recent as all rows after it. */
  predicate FirstRowsRecent(t: Table, bot: string, limit: nat) { FirstRecent(t, Partition(t, bot), limit) }

  predicate FirstRecent(t: Table, r: seq<RowKey>, limit: nat) {
    forall q, p | 0 <= q < p < |r| && q < limit :: RecentPair(t, r[q], r[p])
  }

  predicate RecentPair(t: Table, a: RowKey, b: RowKey) { a in t && b in t && AtMost(t[b], t[a]) }

  lemma OrderGivesFirst(t: Table, bot: string, limit: nat)
    requires RecentFollowsStart(t)
    ensures FirstRowsRecent(t, bot, limit)
  {
    PartitionFacts(t, bot);
    var part := Partition(t, bot);
    assert forall q | 0 <= q < |part| :: part[q] in part;
  }

  /** The rows chat_start writes are so: their two times are equal. */
  lemma ChatStartKeepsTimesEqual(t: Table, bot: string, conv: string, now: int)
    requires forall k | k in t :: t[k] == Some(k.startedAt)
    ensures forall k | k in ChatStarted(t, bot, conv, now) :: ChatStarted(t, bot, conv, now)[k] == Some(k.startedAt)
    ensures RecentFollowsStart(ChatStarted(t, bot, conv, now))
  {
  }

  lemma PartitionFacts(t: Table, bot: string)
    ensures |Partition(t, bot)| == |BotKeys(t, bot)|
    ensures forall k :: k in Partition(t, bot) <==> k in t && k.bot == bot
    ensures forall i, j | 0 <= i < j < |Partition(t, bot)| ::
              ClusterBefore(Partition(t, bot)[i], Partition(t, bot)[j]) && Partition(t, bot)[i] != Partition(t, bot)[j]
  {
    ClusterOrderIsStrict(t, bot);
    SortLists(BotKeys(t, bot), CLUSTER_ORDER);
    var r := Partition(t, bot);
    assert forall i | 0 <= i < |r| :: r[i] in r;
    assert forall i, j | 0 <= i < j < |r| :: CLUSTER_ORDER(r[i], r[j]);
  }

  /** A bot's rows are read the latest started first, those started at one time by id in byte order. */
  lemma PartitionOrder(t: Table, bot: string, i: nat, j: nat)
    requires i < j < |Partition(t, bot)|
    ensures var a, b := Partition(t, bot)[i], Partition(t, bot)[j];
            && a in t && b in t && a.bot == b.bot == bot
            && (a.startedAt > b.startedAt || (a.startedAt == b.startedAt && LexLess(a.conv, b.conv)))
  {
    PartitionFacts(t, bot);
    assert Partition(t, bot)[i] in Partition(t, bot) && Partition(t, bot)[j] in Partition(t, bot);
  }

  predicate NoRepeats(r: seq<RowKey>) { forall i, j | 0 <= i < j < |r| :: r[i] != r[j] }

  /** What is fetched: rows of the bots, none twice. */
  lemma {:induction false} FetchedFacts(t: Table, bots: seq<string>, limit: nat)
    requires Distinct(bots)
    ensures NoRepeats(Fetched(t, bots, limit))
    ensures forall k | k in Fetched(t, bots, limit) :: k in Rows(t, bots)
    decreases |bots|
  {
    if bots != [] {
      var n := |bots| - 1;
      FetchedFacts(t, bots[..n], limit);
      PartitionFacts(t, bots[n]);
      var a, b := Fetched(t, bots[..n], limit), First(Partition(t, bots[n]), limit);
      assert forall x | x in bots[..n] :: x != bots[n];
      assert forall i | 0 <= i < |b| :: b[i] in Partition(t, bots[n]);
      assert forall x | x in a :: x.bot in bots[..n];
      NoRepeatsConcat(a, b);
    }
  }

  lemma NoRepeatsConcat(a: seq<RowKey>, b: seq<RowKey>)
    requires NoRepeats(a) && NoRepeats(b) && forall x | x in a :: x !in b
    ensures NoRepeats(a + b)
  {
    assert forall i | 0 <= i < |a| :: a[i] in a;
    assert forall i | 0 <= i < |b| :: b[i] in b;
  }

  /** A row that is not fetched has limit rows of its own bot fetched before it. */
  lemma {:induction false} NotFetched(t: Table, bots: seq<string>, limit: nat, k: RowKey)
    requires k in Rows(t, bots) && k !in Fetched(t, bots, limit)
    ensures |Partition(t, k.bot)| > limit && k !in Partition(t, k.bot)[..limit]
    ensures forall i | 0 <= i < limit :: Partition(t, k.bot)[i] in Fetched(t, bots, limit)
    decreases |bots|
  {
    var n := |bots| - 1;
    PartitionFacts(t, k.bot);
    var part := First(Partition(t, bots[n]), limit);
    assert forall i | 0 <= i < |part| :: part[i] in part;
    if k.bot == bots[n] {
      assert k in Partition(t, bots[n]);
    } else {
      assert k.bot in bots[..n];
      NotFetched(t, bots[..n], limit, k);
    }
  }

  function Elements(r: seq<RowKey>): set<RowKey> { set i | 0 <= i < |r| :: r[i] }

  lemma {:induction false} ElementsSize(r: seq<RowKey>)
    ensures |Elements(r)| <= |r|
    ensures NoRepeats(r) ==> |Elements(r)| == |r|
    decreases |r|
  {
    if r == [] {
      assert Elements(r) == {};
    } else {
      var n := |r| - 1;
      ElementsSize(r[..n]);
      assert Elements(r) == Elements(r[..n]) + {r[n]};
    }
  }

  /** If limit rows of a descending list are at least as recent as k, so are its first limit. */
  lemma FirstAreRecent(t: Table, s: seq<RowKey>, top: seq<RowKey>, k: RowKey, i: nat)
    requires AllIn(t, s) && Descending(t, s) && k in t && i < |s| && i < |top| && NoRepeats(top)
    requires forall j | 0 <= j < |top| :: top[j] in s && top[j] in t && AtMost(t[k], t[top[j]])
    ensures AtMost(t[k], t[s[i]])
  {
    if !AtMost(t[k], t[s[i]]) {
      forall x | x in Elements(top) ensures x in Elements(s[..i]) {
        var j :| 0 <= j < |s| && s[j] == x;
        assert j >= i ==> AtMost(t[s[j]], t[s[i]]);
        assert s[..i][j] == x;
      }
      SubsetSize(Elements(top), Elements(s[..i]));
      ElementsSize(top);
      ElementsSize(s[..i]);
    }
  }

  lemma SamePermutation(s: seq<RowKey>, f: seq<RowKey>)
    requires multiset(s) == multiset(f)
    ensures forall x :: x in s <==> x in f
    ensures |s| == |f|
    ensures NoRepeats(f) ==> NoRepeats(s)
  {
    forall x ensures x in s <==> x in f {
      assert x in s <==> x in multiset(s);
      assert x in f <==> x in multiset(f);
    }
    assert |multiset(s)| == |multiset(f)|;
    if NoRepeats(f) {
      MultiplicityOne(f);
      OneMeansNoRepeats(s);
    }
  }

  lemma {:induction false} MultiplicityOne(r: seq<RowKey>)
    requires NoRepeats(r)
    ensures forall x :: multiset(r)[x] <= 1
    decreases |r|
  {
    if r != [] {
      var n := |r| - 1;
      assert r == r[..n] + [r[n]];
      MultiplicityOne(r[..n]);
      assert r[n] !in multiset(r[..n]);
    }
  }

  lemma OneMeansNoRepeats(r: seq<RowKey>)
    requires forall x :: multiset(r)[x] <= 1
    ensures NoRepeats(r)
  {
    forall i, j | 0 <= i < j < |r| ensures r[i] != r[j] {
      assert r == r[..j] + [r[j]] + r[j + 1..];
      assert r[..j][i] == r[i] && multiset(r[..j])[r[i]] >= 1;
      assert multiset(r)[r[j]] == multiset(r[..j])[r[j]] + 1 + multiset(r[j + 1..])[r[j]];
    }
  }

  lemma FetchedLeftOut(t: Table, s: seq<RowKey>, limit: nat, k: RowKey, i: nat)
    requires AllIn(t, s) && Descending(t, s) && k in s && k !in First(s, limit) && i < |First(s, limit)|
    ensures k in t && AtMost(t[k], t[First(s, limit)[i]])
  {
    assert forall j | 0 <= j < |First(s, limit)| :: First(s, limit)[j] == s[j];
    var j :| 0 <= j < |s| && s[j] == k;
  }

  lemma UnfetchedLeftOut(t: Table, bots: seq<string>, limit: nat, s: seq<RowKey>, k: RowKey, i: nat)
    requires FirstRowsRecent(t, k.bot, limit) && k in Rows(t, bots) && k !in Fetched(t, bots, limit)
    requires AllIn(t, s) && Descending(t, s) && (forall x | x in Fetched(t, bots, limit) :: x in s)
    requires i < |First(s, limit)|
    ensures AtMost(t[k], t[First(s, limit)[i]])
  {
    NotFetched(t, bots, limit, k);
    PartitionFacts(t, k.bot);
    var part := Partition(t, k.bot);
    assert k in part;
    var p :| 0 <= p < |part| && part[p] == k;
    assert forall j | 0 <= j < limit :: part[..limit][j] == part[j];
    forall j | 0 <= j < limit
      ensures part[..limit][j] in s && part[..limit][j] in t && AtMost(t[k], t[part[..limit][j]]) {
      assert part[j] in Fetched(t, bots, limit);
    }
    FirstAreRecent(t, s, part[..limit], k, i);
  }

  /** No row left out of r is more recent than one in it. */
  predicate NoneLeftOut(t: Table, bots: seq<string>, r: seq<RowKey>)
    requires AllIn(t, r)
  {
    forall k | k in Rows(t, bots) && k !in r :: forall i | 0 <= i < |r| :: AtMost(t[k], t[r[i]])
  }

  lemma LeftOut(t: Table, bots: seq<string>, limit: nat, s: seq<RowKey>)
    requires forall bot | bot in bots :: FirstRowsRecent(t, bot, limit)
    requires AllIn(t, s) && Descending(t, s) && AllIn(t, First(s, limit))
    requires forall x :: x in s <==> x in Fetched(t, bots, limit)
    ensures NoneLeftOut(t, bots, First(s, limit))
  {
    var r := First(s, limit);
    forall k | k in Rows(t, bots) && k !in r
      ensures forall i | 0 <= i < |r| :: AtMost(t[k], t[r[i]])
    {
      forall i | 0 <= i < |r| ensures AtMost(t[k], t[r[i]]) {
        if k in s { FetchedLeftOut(t, s, limit, k, i); } else { UnfetchedLeftOut(t, bots, limit, s, k, i); }
      }
    }
  }

  /** The merge is a true top-limit.  If the first limit rows of each bot are no less recent than the
      rows after them, then the list holds rows of the bots, none twice, most recent first; it holds
      limit of them or all there are; and no row left out is more recent than any listed. */
  lemma TopIsTop(t: Table, bots: seq<string>, limit: nat)
    requires Distinct(bots) && forall bot | bot in bots :: FirstRowsRecent(t, bot, limit)
    ensures var r := TopRows(t, bots, limit);
            && NoRepeats(r) && AllIn(t, r) && Descending(t, r)
            && (forall k | k in r :: k in Rows(t, bots))
            && |r| == (if |Rows(t, bots)| <= limit then |Rows(t, bots)| else limit)
            && NoneLeftOut(t, bots, r)
  {
    FetchedIn(t, bots, limit);
    FetchedFacts(t, bots, limit);
    FetchedSize(t, bots, limit);
    var s := SortRecent(t, Fetched(t, bots, limit));
    SamePermutation(s, Fetched(t, bots, limit));
    FirstKeeps(t, s, limit);
    LeftOut(t, bots, limit, s);
  }

  /** The same when each bot is read in its own state: each listed row was in its bot's state, and of the
      rows in the bots' states none left out is more recent.  So a row that was there all the time is
      listed, or as many as the limit are that are at least as recent. */
  lemma TopAcross(at: nat -> Table, bots: seq<string>, limit: nat)
    requires Distinct(bots) && forall i | 0 <= i < |bots| :: FirstRowsRecent(at(i), bots[i], limit)
    ensures var r := TopRows(Seen(at, bots), bots, limit);
            && NoRepeats(r) && AllIn(Seen(at, bots), r) && Descending(Seen(at, bots), r)
            && (forall k | k in r :: exists i :: 0 <= i < |bots| && IsRead(at, bots, i, k))
            && (forall i, k | 0 <= i < |bots| && IsRead(at, bots, i, k) ::
                  Served(Seen(at, bots), r, limit, k, at(i)[k]))
  {
    var t, r := Seen(at, bots), TopRows(Seen(at, bots), bots, limit);
    forall bot | bot in bots ensures FirstRowsRecent(t, bot, limit) {
      var i :| 0 <= i < |bots| && bots[i] == bot;
      SeenFirstRecent(at, bots, i, limit);
    }
    TopIsTop(t, bots, limit);
    forall k | k in r ensures exists i :: 0 <= i < |bots| && IsRead(at, bots, i, k) {
      var i :| 0 <= i < |bots| && bots[i] == k.bot;
      SeenIsRead(at, bots, k);
      assert IsRead(at, bots, i, k);
    }
    forall i, k | 0 <= i < |bots| && IsRead(at, bots, i, k) ensures Served(t, r, limit, k, at(i)[k]) {
      SeenIsRead(at, bots, k);
      if k !in r { ShortIsAll(t, bots, r, k); }
    }
  }

  /** A row of this recency is listed with it, or the list is full of rows at least as recent. */
  predicate Served(t: Table, r: seq<RowKey>, limit: nat, k: RowKey, time: Option<int>)
    requires AllIn(t, r)
  {
    if k in r then k in t && t[k] == time
    else |r| == limit && forall j | 0 <= j < |r| :: AtMost(time, t[r[j]])
  }

  /** The i-th query found this row, of its bot. */
  predicate IsRead(at: nat -> Table, bots: seq<string>, i: nat, k: RowKey)
    requires i < |bots|
  {
    k in at(i) && k.bot == bots[i]
  }

  lemma SeenFirstRecent(at: nat -> Table, bots: seq<string>, i: nat, limit: nat)
    requires Distinct(bots) && i < |bots| && FirstRowsRecent(at(i), bots[i], limit)
    ensures FirstRowsRecent(Seen(at, bots), bots[i], limit)
  {
    SeenPartition(at, bots, i);
    PartitionFacts(at(i), bots[i]);
    var t, r := Seen(at, bots), Partition(at(i), bots[i]);
    forall q, p | 0 <= q < p < |r| && q < limit ensures RecentPair(t, r[q], r[p]) {
      assert r[q] in r && r[p] in r && RecentPair(at(i), r[q], r[p]);
      SeenIsRead(at, bots, r[q]);
      SeenIsRead(at, bots, r[p]);
    }
  }

  /** Distinct rows of the bots that leave one out are fewer than all. */
  lemma ShortIsAll(t: Table, bots: seq<string>, r: seq<RowKey>, k: RowKey)
    requires NoRepeats(r) && (forall x | x in r :: x in Rows(t, bots)) && k in Rows(t, bots) && k !in r
    ensures |r| < |Rows(t, bots)|
  {
    ElementsSize(r);
    assert forall i | 0 <= i < |r| :: r[i] in r;
    SubsetSize(Elements(r), Rows(t, bots) - {k});
  }

  lemma FirstKeeps(t: Table, s: seq<RowKey>, limit: nat)
    requires NoRepeats(s) && AllIn(t, s) && Descending(t, s)
    ensures var r := First(s, limit); NoRepeats(r) && AllIn(t, r) && Descending(t, r) && forall k | k in r :: k in s
  {
  }

  /** Enough is fetched: limit rows, or every row. */
  lemma FetchedSize(t: Table, bots: seq<string>, limit: nat)
    requires Distinct(bots)
    ensures |Fetched(t, bots, limit)| <= |Rows(t, bots)|
    ensures |Fetched(t, bots, limit)| < limit ==> |Fetched(t, bots, limit)| == |Rows(t, bots)|
    ensures |Fetched(t, bots, limit)| >= limit || forall k | k in Rows(t, bots) :: k in Fetched(t, bots, limit)
  {
    var f, all := Fetched(t, bots, limit), Rows(t, bots);
    FetchedFacts(t, bots, limit);
    ElementsSize(f);
    assert forall i | 0 <= i < |f| :: f[i] in f;
    SubsetSize(Elements(f), all);
    if k :| k in all && k !in f {
      LeftOutMeansFull(t, bots, limit, k);
    } else {
      assert all == Elements(f);
    }
  }

  lemma LeftOutMeansFull(t: Table, bots: seq<string>, limit: nat, k: RowKey)
    requires k in Rows(t, bots) && k !in Fetched(t, bots, limit)
    ensures |Fetched(t, bots, limit)| >= limit
  {
    var f := Fetched(t, bots, limit);
    NotFetched(t, bots, limit, k);
    PartitionFacts(t, k.bot);
    var top := Partition(t, k.bot)[..limit];
    ElementsSize(f);
    ElementsSize(top);
    forall x | x in Elements(top) ensures x in Elements(f) {
      var i :| 0 <= i < limit && top[i] == x;
      assert Partition(t, k.bot)[i] in f;
    }
    SubsetSize(Elements(top), Elements(f));
  }

  /** The condition is needed: of two rows of a bot whose order in the partition contradicts their
      recency, the list that is just long enough for the first leaves out the second, which is more
      recent. */
  lemma OrderIsNeeded(t: Table, bot: string, a: RowKey, b: RowKey) returns (limit: nat, i: nat)
    requires a in BotKeys(t, bot) && b in BotKeys(t, bot) && ClusterBefore(a, b) && !AtMost(t[b], t[a])
    ensures 1 <= limit <= |Partition(t, bot)| && Partition(t, bot)[limit - 1] == a
    ensures b !in TopRows(t, [bot], limit) && i < |TopRows(t, [bot], limit)|
    ensures TopRows(t, [bot], limit)[i] == a
    ensures !NoneLeftOut(t, [bot], TopRows(t, [bot], limit))
  {
    var q, p := Places(t, bot, a, b);
    limit := q + 1;
    OneBot(t, bot, limit);
    AllListed(t, [bot], limit);
    assert Partition(t, bot)[..limit][q] == a;
    assert a in TopRows(t, [bot], limit);
    assert b !in Partition(t, bot)[..limit] by {
      assert forall x | x in Partition(t, bot)[..limit] :: x in Partition(t, bot)[..p];
    }
    i :| 0 <= i < |TopRows(t, [bot], limit)| && TopRows(t, [bot], limit)[i] == a;
    assert b in Rows(t, [bot]);
  }

  /** So for an endpoint whose limit goes up to some most, 200 here, no list of any bots leaves out a
      more recent row exactly when each bot's first most rows are no less recent than those after. */
  lemma TopExactly(t: Table, most: nat)
    ensures (forall bots, limit: nat | Distinct(bots) && 1 <= limit <= most ::
               NoneLeftOut(t, bots, TopRows(t, bots, limit)))
            <==> forall bot :: FirstRowsRecent(t, bot, most)
  {
    if forall bot :: FirstRowsRecent(t, bot, most) {
      forall bots, limit: nat | Distinct(bots) && 1 <= limit <= most
        ensures NoneLeftOut(t, bots, TopRows(t, bots, limit)) {
        forall bot | bot in bots ensures FirstRowsRecent(t, bot, limit) {
          FewerFirst(t, bot, limit, most);
        }
        TopIsTop(t, bots, limit);
      }
    }
    if forall bots, limit: nat | Distinct(bots) && 1 <= limit <= most :: NoneLeftOut(t, bots, TopRows(t, bots, limit)) {
      forall bot ensures FirstRowsRecent(t, bot, most) {
        TopNeedsFirst(t, bot, most);
      }
    }
  }

  lemma FewerFirst(t: Table, bot: string, limit: nat, most: nat)
    requires FirstRowsRecent(t, bot, most) && limit <= most
    ensures FirstRowsRecent(t, bot, limit)
  {
  }

  lemma TopNeedsFirst(t: Table, bot: string, most: nat)
    requires forall limit: nat | 1 <= limit <= most :: NoneLeftOut(t, [bot], TopRows(t, [bot], limit))
    ensures FirstRowsRecent(t, bot, most)
  {
    var part := Partition(t, bot);
    PartitionFacts(t, bot);
    forall q, p | 0 <= q < p < |part| && q < most
      ensures RecentPair(t, part[q], part[p])
    {
      assert part[q] in part && part[p] in part && part[p] in Rows(t, [bot]);
      if !AtMost(t[part[p]], t[part[q]]) {
        var limit, i := OrderIsNeeded(t, bot, part[q], part[p]);
      }
    }
  }

  // ----- the rows that chat_start writes

  datatype Start = Start(bot: string, conv: string, now: int)

  /** The table after these chats have started. */
  function Started(starts: seq<Start>): Table {
    if starts == [] then map[]
    else
      var last := starts[|starts| - 1];
      ChatStarted(Started(starts[..|starts| - 1]), last.bot, last.conv, last.now)
  }

  /** The rows are those of the chats started with a bot, each with its start as its last message's time. */
  lemma {:induction false} StartedRows(starts: seq<Start>, k: RowKey)
    ensures k in Started(starts) <==>
            k.bot != "" && exists i :: 0 <= i < |starts| && starts[i] == Start(k.bot, k.conv, k.startedAt)
    ensures k in Started(starts) ==> Started(starts)[k] == Some(k.startedAt)
    decreases |starts|
  {
    if starts != [] {
      var n := |starts| - 1;
      StartedRows(starts[..n], k);
      assert forall i | 0 <= i < n :: starts[..n][i] == starts[i];
    }
  }

  lemma {:induction false} StartedTimesEqual(starts: seq<Start>)
    ensures forall k | k in Started(starts) :: Started(starts)[k] == Some(k.startedAt)
    decreases |starts|
  {
    if starts != [] {
      var last := starts[|starts| - 1];
      StartedTimesEqual(starts[..|starts| - 1]);
      ChatStartKeepsTimesEqual(Started(starts[..|starts| - 1]), last.bot, last.conv, last.now);
    }
  }

  /** After any chats have started, in any order and at any times, the list is the true top-limit. */
  lemma StartedTopIsTop(starts: seq<Start>, bots: seq<string>, limit: nat)
    requires Distinct(bots)
    ensures var t := Started(starts);
            var r := TopRows(t, bots, limit);
            && NoRepeats(r) && Descending(t, r) && (forall k | k in r :: k in Rows(t, bots))
            && |r| == (if |Rows(t, bots)| <= limit then |Rows(t, bots)| else limit)
            && NoneLeftOut(t, bots, r)
  {
    var t := Started(starts);
    StartedTimesEqual(starts);
    forall bot | bot in bots ensures FirstRowsRecent(t, bot, limit) {
      OrderGivesFirst(t, bot, limit);
    }
    TopIsTop(t, bots, limit);
  }

  lemma AllListed(t: Table, bots: seq<string>, limit: nat)
    requires |Fetched(t, bots, limit)| <= limit
    ensures forall x :: x in TopRows(t, bots, limit) <==> x in Fetched(t, bots, limit)
  {
    FetchedIn(t, bots, limit);
    var f := Fetched(t, bots, limit);
    SamePermutation(SortRecent(t, f), f);
  }

  lemma Places(t: Table, bot: string, a: RowKey, b: RowKey) returns (q: nat, p: nat)
    requires a in BotKeys(t, bot) && b in BotKeys(t, bot) && ClusterBefore(a, b)
    ensures q < p < |Partition(t, bot)| && Partition(t, bot)[q] == a && Partition(t, bot)[p] == b
    ensures b !in Partition(t, bot)[..p]
  {
    var part := Partition(t, bot);
    PartitionFacts(t, bot);
    assert a in part && b in part;
    q :| 0 <= q < |part| && part[q] == a;
    p :| 0 <= p < |part| && part[p] == b;
    LexTotal(a.conv, b.conv);
  }

  lemma OneBot(t: Table, bot: string, limit: nat)
    requires limit <= |Partition(t, bot)|
    ensures Fetched(t, [bot], limit) == Partition(t, bot)[..limit]
  {
    assert [bot][..0] == [];
    assert Fetched(t, [], limit) == [];
  }
}
