/** The online-chat tracker, updating its Redis keys in place, and the paged listing it serves. */
module OnlineChatTracker {
  import opened Options
  import opened SortedSets
  import opened RedisSets
  import opened OnlineTracking

  /** One entry of the listing. */
  datatype Chat = Chat(conv: string, hash: Hash)

  class Tracker {
    var online: set<string>
    var byTime: Scores
    var users: SetStore
    var agents: SetStore
    var hashes: map<string, Hash>

    ghost function View(): Store
      reads this
    {
      Store(online, byTime, users, agents, hashes)
    }

    /** The indexes agree at every suspension point, whatever interleaves. */
    ghost predicate Valid()
      reads this
    {
      Agree(View())
    }

    constructor ()
      ensures Valid() && View() == EMPTY
    {
      online, byTime, users, agents, hashes := {}, map[], map[], map[], map[];
    }

    method ChatOnline(conv: string, user: string, server: string, bot: string, now: int)
      requires Valid()
      modifies this
      ensures Valid()
      ensures View() == Next(old(View()), GoOnline(conv, user, server, bot, now))
    {
      AgreeStep(View(), GoOnline(conv, user, server, bot, now));
      online := online + {conv};
      byTime := byTime[conv := now];
      users := Sadd(users, user, conv);
      var seconds := Some(now / TICKS_PER_SECOND);
      hashes := hashes[conv := Hash(Some(user), Some(bot), Some(""), Some(server), Some("queued"), seconds, seconds)];
    }

    method ChatAssigned(conv: string, agent: string)
      requires Valid()
      modifies this
      ensures Valid()
      ensures View() == Next(old(View()), Assign(conv, agent))
    {
      AgreeStep(View(), Assign(conv, agent));
      var hash := if conv in hashes then hashes[conv] else NO_FIELDS;
      hashes := hashes[conv := hash.(agent := Some(agent), status := Some("active"))];
      agents := Sadd(agents, agent, conv);
    }

    method ChatMessageReceived(conv: string, now: int)
      requires Valid()
      modifies this
      ensures Valid()
      ensures View() == Next(old(View()), Message(conv, now))
    {
      AgreeStep(View(), Message(conv, now));
      var hash := if conv in hashes then hashes[conv] else NO_FIELDS;
      hashes := hashes[conv := hash.(lastMsgAt := Some(now / TICKS_PER_SECOND))];
    }

    /** The first half of chat_offline. */
    method ReadChat(conv: string) returns (found: bool, user: string, agent: string)
      ensures found == (conv in hashes)
      ensures found ==> user == OrEmpty(hashes[conv].user) && agent == OrEmpty(hashes[conv].agent)
    {
      found, user, agent := conv in hashes, "", "";
      if found {
        user, agent := OrEmpty(hashes[conv].user), OrEmpty(hashes[conv].agent);
      }
    }

    /** The second half, for what was read. */
    method RemoveChat(conv: string, user: string, agent: string)
      requires Valid()
      modifies this
      ensures Valid()
      ensures View() == Next(old(View()), Commit(conv, user, agent))
    {
      AgreeStep(View(), Commit(conv, user, agent));
      online := online - {conv};
      byTime := byTime - {conv};
      hashes := hashes - {conv};
      if user != "" { users := Srem(users, user, conv); }
      if agent != "" { agents := Srem(agents, agent, conv); }
    }

    method ChatOffline(conv: string)
      requires Valid()
      modifies this
      ensures Valid()
      ensures View() == Next(old(View()), Offline(conv))
    {
      AgreeStep(View(), Offline(conv));
      var found, user, agent := ReadChat(conv);
      if found {
        RemoveChat(conv, user, agent);
      }
    }

    method GetOnlineCount() returns (n: nat)
      requires Valid()
      ensures n == |View().online| == |View().byTime|
    {
      n := |online|;
    }

    /** The first call: the page's ids. */
    method ReadIds(offset: int, limit: int, newestFirst: bool) returns (ids: seq<string>)
      ensures ids == PageIds(View(), offset, limit, newestFirst)
    {
      ids := Slice(Order(byTime, newestFirst), offset, offset + limit - 1);
    }

    /** Both calls.  The second finds the hashes as later; with nothing in between they are this
        state's. */
    method GetAllOnlineChats(later: map<string, Hash>, offset: int, limit: int, newestFirst: bool)
      returns (chats: seq<Chat>)
      ensures chats == Described(later, PageIds(View(), offset, limit, newestFirst))
      ensures later == hashes ==> chats == Page(View(), offset, limit, newestFirst)
    {
      var ids := ReadIds(offset, limit, newestFirst);
      chats := Describe(later, ids);
    }
  }

  /** The second call, and the loop over ids and hashes side by side. */
  method Describe(hashes: map<string, Hash>, ids: seq<string>) returns (chats: seq<Chat>)
    ensures chats == Described(hashes, ids)
  {
    chats := [];
    for i := 0 to |ids|
      invariant chats == Described(hashes, ids[..i])
    {
      assert ids[..i + 1][..i] == ids[..i];
      if ids[i] in hashes {
        chats := chats + [Chat(ids[i], hashes[ids[i]])];
      }
    }
    assert ids[..|ids|] == ids;
  }

  function Reverse(r: seq<string>): (s: seq<string>)
    ensures |s| == |r|
    ensures forall i | 0 <= i < |r| :: s[i] == r[|r| - 1 - i]
  {
    seq(|r|, i requires 0 <= i < |r| => r[|r| - 1 - i])
  }

  function Order(z: Scores, newestFirst: bool): seq<string> {
    if newestFirst then Reverse(Range(z)) else Range(z)
  }

  /** Which elements of n ZRANGE and ZREVRANGE give: inclusive bounds, a negative one counts from the
      end. */
  function Bounds(n: nat, start: int, stop: int): (b: (nat, nat))
    ensures b.0 <= b.1 <= n
  {
    var lo := if start < 0 then (if start + n < 0 then 0 else start + n) else start;
    var hi := if stop < 0 then stop + n else if stop >= n then n - 1 else stop;
    if lo > hi || lo >= n then (0, 0) else (lo, hi + 1)
  }

  function Slice<T>(r: seq<T>, start: int, stop: int): seq<T> {
    var b := Bounds(|r|, start, stop);
    r[b.0..b.1]
  }

  /** Pairs each id with its hash, leaving out the ids that have none. */
  function Described(hashes: map<string, Hash>, ids: seq<string>): seq<Chat> {
    if ids == [] then []
    else
      var last := ids[|ids| - 1];
      Described(hashes, ids[..|ids| - 1]) + (if last in hashes then [Chat(last, hashes[last])] else [])
  }

  function PageIds(s: Store, offset: int, limit: int, newestFirst: bool): seq<string> {
    Slice(Order(s.byTime, newestFirst), offset, offset + limit - 1)
  }

  function Page(s: Store, offset: int, limit: int, newestFirst: bool): seq<Chat> {
    Described(s.hashes, PageIds(s, offset, limit, newestFirst))
  }

  /** All chats, in listing order. */
  function Listed(s: Store, newestFirst: bool): seq<Chat> {
    Described(s.hashes, Order(s.byTime, newestFirst))
  }

  predicate AllIn(hashes: map<string, Hash>, ids: seq<string>) {
    forall i | 0 <= i < |ids| :: ids[i] in hashes
  }

  lemma {:induction false} DescribedInFull(hashes: map<string, Hash>, ids: seq<string>)
    requires AllIn(hashes, ids)
    ensures |Described(hashes, ids)| == |ids|
    ensures forall i | 0 <= i < |ids| :: Described(hashes, ids)[i] == Chat(ids[i], hashes[ids[i]])
    decreases |ids|
  {
    if ids != [] {
      DescribedInFull(hashes, ids[..|ids| - 1]);
    }
  }

  function Min(a: int, b: int): int { if a < b then a else b }

  lemma DescribedStretch(hashes: map<string, Hash>, ids: seq<string>, lo: nat, hi: nat)
    requires AllIn(hashes, ids) && lo <= hi <= |ids|
    ensures |Described(hashes, ids)| == |ids|
    ensures Described(hashes, ids[lo..hi]) == Described(hashes, ids)[lo..hi]
  {
    DescribedInFull(hashes, ids);
    DescribedInFull(hashes, ids[lo..hi]);
  }

  lemma SliceStretch<T>(r: seq<T>, offset: nat, limit: nat)
    requires limit >= 1
    ensures Slice(r, offset, offset + limit - 1) == r[Min(offset, |r|)..Min(offset + limit, |r|)]
  {
  }

  lemma RangeDistinct(r: seq<string>, z: Scores)
    requires Listing(r, z)
    ensures forall i, j | 0 <= i < j < |r| :: r[i] != r[j]
    ensures forall i | 0 <= i < |r| :: r[i] in z
  {
    assert forall i | 0 <= i < |r| :: r[i] in r;
    forall i, j | 0 <= i < j < |r| ensures r[i] != r[j] {
      BeforeTotal(z, r[i], r[j]);
    }
  }

  lemma ReverseDistinct(r: seq<string>)
    requires forall i, j | 0 <= i < j < |r| :: r[i] != r[j]
    ensures forall i, j | 0 <= i < j < |r| :: Reverse(r)[i] != Reverse(r)[j]
  {
  }

  lemma OrderEnumerates(z: Scores, newestFirst: bool)
    ensures var r := Order(z, newestFirst);
            && |r| == |z| && (forall i | 0 <= i < |r| :: r[i] in z)
            && (forall i, j | 0 <= i < j < |r| :: r[i] != r[j])
  {
    RangeListing(z);
    RangeDistinct(Range(z), z);
    ReverseDistinct(Range(z));
  }

  /** The whole listing holds every online chat exactly once, with its hash; no online id is skipped
      for want of a hash. */
  lemma ListedIsOnline(s: Store, newestFirst: bool)
    requires Agree(s)
    ensures AllIn(s.hashes, Order(s.byTime, newestFirst))
    ensures |Order(s.byTime, newestFirst)| == |Listed(s, newestFirst)| == |s.online|
    ensures forall i | 0 <= i < |s.online| ::
              var chat := Listed(s, newestFirst)[i]; chat.conv in s.online && chat.hash == s.hashes[chat.conv]
    ensures forall i, j | 0 <= i < j < |s.online| :: Listed(s, newestFirst)[i].conv != Listed(s, newestFirst)[j].conv
  {
    OrderEnumerates(s.byTime, newestFirst);
    DescribedInFull(s.hashes, Order(s.byTime, newestFirst));
    assert |s.byTime| == |s.online|;
  }

  lemma OrderFollowsTime(z: Scores, newestFirst: bool)
    ensures var r := Order(z, newestFirst);
            forall i, j | 0 <= i < j < |r| ::
              r[i] in z && r[j] in z && if newestFirst then z[r[i]] >= z[r[j]] else z[r[i]] <= z[r[j]]
  {
    RangeListing(z);
    OrderEnumerates(z, newestFirst);
    assert forall i, j | 0 <= i < j < |Range(z)| :: Before(z, Range(z)[i], Range(z)[j]);
  }

  /** The listing is in order of the times the chats went online, and a chat that goes online after
      all others heads the newest-first listing. */
  lemma ListedInTimeOrder(s: Store, newestFirst: bool)
    requires Agree(s)
    ensures |Listed(s, newestFirst)| == |s.online|
    ensures forall i, j | 0 <= i < j < |s.online| ::
              var a, b := Listed(s, newestFirst)[i].conv, Listed(s, newestFirst)[j].conv;
              && a in s.byTime && b in s.byTime
              && if newestFirst then s.byTime[a] >= s.byTime[b] else s.byTime[a] <= s.byTime[b]
  {
    ListedIsOnline(s, newestFirst);
    OrderFollowsTime(s.byTime, newestFirst);
    DescribedInFull(s.hashes, Order(s.byTime, newestFirst));
  }

  lemma HighestIsFirst(z: Scores, c: string)
    requires c in z && forall d | d in z && d != c :: z[d] < z[c]
    ensures |Order(z, true)| > 0 && Order(z, true)[0] == c
  {
    RangeListing(z);
    OrderEnumerates(z, true);
    OrderFollowsTime(z, true);
    var i :| 0 <= i < |Range(z)| && Range(z)[i] == c;
    assert Order(z, true)[|z| - 1 - i] == c;
  }

  lemma NewestComesFirst(s: Store, c: string, user: string, server: string, bot: string, now: int)
    requires Agree(s) && forall d | d in s.byTime :: s.byTime[d] < now
    ensures var listed := Listed(Next(s, GoOnline(c, user, server, bot, now)), true);
            |listed| > 0 && listed[0].conv == c && listed[0].hash.user == Some(user)
  {
    var t := Next(s, GoOnline(c, user, server, bot, now));
    AgreeStep(s, GoOnline(c, user, server, bot, now));
    ListedIsOnline(t, true);
    HighestIsFirst(t.byTime, c);
    DescribedInFull(t.hashes, Order(t.byTime, true));
  }

  predicate FromBoth(chat: Chat, hashes: map<string, Hash>, ids: seq<string>) {
    chat.conv in ids && chat.conv in hashes && chat.hash == hashes[chat.conv]
  }

  lemma {:induction false} DescribedFromBoth(hashes: map<string, Hash>, ids: seq<string>)
    ensures forall i | 0 <= i < |Described(hashes, ids)| :: FromBoth(Described(hashes, ids)[i], hashes, ids)
    decreases |ids|
  {
    if ids != [] {
      var n := |ids| - 1;
      DescribedFromBoth(hashes, ids[..n]);
      assert ids == ids[..n] + [ids[n]];
      var r, r' := Described(hashes, ids[..n]), Described(hashes, ids);
      forall i | 0 <= i < |r'| ensures FromBoth(r'[i], hashes, ids) {
        assert i < |r| ==> r'[i] == r[i] && FromBoth(r[i], hashes, ids[..n]);
      }
    }
  }

  lemma {:induction false} DescribedSkips(hashes: map<string, Hash>, ids: seq<string>)
    requires forall i, j | 0 <= i < j < |ids| :: ids[i] != ids[j]
    ensures var r := Described(hashes, ids);
            && (forall i, j | 0 <= i < j < |r| :: r[i].conv != r[j].conv)
            && (forall c | c in ids && c in hashes :: Chat(c, hashes[c]) in r)
    decreases |ids|
  {
    if ids != [] {
      var n := |ids| - 1;
      DescribedSkips(hashes, ids[..n]);
      DescribedFromBoth(hashes, ids[..n]);
      assert forall c :: c in ids <==> c == ids[n] || c in ids[..n];
      assert ids[n] !in ids[..n];
    }
  }

  lemma SliceDistinct(r: seq<string>, start: int, stop: int)
    requires forall i, j | 0 <= i < j < |r| :: r[i] != r[j]
    ensures forall i, j | 0 <= i < j < |Slice(r, start, stop)| :: Slice(r, start, stop)[i] != Slice(r, start, stop)[j]
    ensures forall c | c in Slice(r, start, stop) :: c in r
  {
  }

  /** A page whose ids are read in one state and whose hashes in a later one: no chat twice, each one
      online in the first state and with its hash in the second, and none left out that was on the
      page and still has a hash. */
  lemma PageAcross(s: Store, t: Store, offset: int, limit: int, newestFirst: bool)
    requires Agree(s)
    ensures var ids := PageIds(s, offset, limit, newestFirst);
            var r := Described(t.hashes, ids);
            && (forall i, j | 0 <= i < j < |r| :: r[i].conv != r[j].conv)
            && (forall i | 0 <= i < |r| ::
                  r[i].conv in s.online && r[i].conv in t.hashes && r[i].hash == t.hashes[r[i].conv])
            && (forall c | c in ids && c in t.hashes :: Chat(c, t.hashes[c]) in r)
  {
    OrderEnumerates(s.byTime, newestFirst);
    SliceDistinct(Order(s.byTime, newestFirst), offset, offset + limit - 1);
    DescribedSkips(t.hashes, PageIds(s, offset, limit, newestFirst));
    DescribedFromBoth(t.hashes, PageIds(s, offset, limit, newestFirst));
    assert forall c | c in Order(s.byTime, newestFirst) :: c in s.online;
  }

  /** For every offset and limit, negative ones included, a page is the slice of the whole listing that
      Redis's index rules give. */
  lemma PageIsSlice(s: Store, offset: int, limit: int, newestFirst: bool)
    requires Agree(s)
    ensures Page(s, offset, limit, newestFirst) == Slice(Listed(s, newestFirst), offset, offset + limit - 1)
  {
    ListedIsOnline(s, newestFirst);
    var ids := Order(s.byTime, newestFirst);
    var b := Bounds(|ids|, offset, offset + limit - 1);
    DescribedStretch(s.hashes, ids, b.0, b.1);
  }

  predicate OnPage(n: nat, offset: int, limit: int, p: int) {
    var last := offset + limit - 1;
    (if offset < 0 then offset + n else offset) <= p <= (if last < 0 then last + n else last)
  }

  /** Which places of the listing are on the page: those from the offset to the last index asked for, each
      counted from the end of the n chats if it is negative. */
  lemma PageHolds(s: Store, offset: int, limit: int, newestFirst: bool) returns (lo: nat, hi: nat)
    requires Agree(s)
    ensures lo <= hi <= |Listed(s, newestFirst)|
    ensures Page(s, offset, limit, newestFirst) == Listed(s, newestFirst)[lo..hi]
    ensures forall p | 0 <= p < |s.online| :: lo <= p < hi <==> OnPage(|s.online|, offset, limit, p)
  {
    PageIsSlice(s, offset, limit, newestFirst);
    ListedIsOnline(s, newestFirst);
    var b := Bounds(|Listed(s, newestFirst)|, offset, offset + limit - 1);
    lo, hi := b.0, b.1;
  }

  /** For an offset of at least 0 and a limit of at least 1 that is the stretch from the offset on. */
  lemma PageIsStretch(s: Store, offset: nat, limit: nat, newestFirst: bool)
    requires Agree(s) && limit >= 1
    ensures var all := Listed(s, newestFirst);
            Page(s, offset, limit, newestFirst) == all[Min(offset, |all|)..Min(offset + limit, |all|)]
  {
    PageIsSlice(s, offset, limit, newestFirst);
    SliceStretch(Listed(s, newestFirst), offset, limit);
  }

  /** Where the page after n pages begins. */
  function Offset(limit: nat, n: nat): nat { if n == 0 then 0 else Offset(limit, n - 1) + limit }

  lemma {:induction false} OffsetIs(limit: nat, n: nat)
    ensures Offset(limit, n) == n * limit
  {
    if n > 0 {
      OffsetIs(limit, n - 1);
      assert n * limit == (n - 1) * limit + limit;
    }
  }

  /** The first n pages, one after another. */
  function Pages(s: Store, limit: nat, n: nat, newestFirst: bool): seq<Chat> {
    if n == 0 then [] else Pages(s, limit, n - 1, newestFirst) + Page(s, Offset(limit, n - 1), limit, newestFirst)
  }

  /** The page at an offset continues the listing from there. */
  lemma PageContinues(s: Store, offset: nat, limit: nat, newestFirst: bool)
    requires Agree(s) && limit >= 1
    ensures var all := Listed(s, newestFirst);
            all[..Min(offset, |all|)] + Page(s, offset, limit, newestFirst) == all[..Min(offset + limit, |all|)]
  {
    var all := Listed(s, newestFirst);
    PageIsStretch(s, offset, limit, newestFirst);
    Joins(all, Min(offset, |all|), Min(offset + limit, |all|));
  }

  lemma Joins<T>(r: seq<T>, lo: nat, hi: nat)
    requires lo <= hi <= |r|
    ensures r[..lo] + r[lo..hi] == r[..hi]
  {
  }

  lemma {:induction false} PagesUpTo(s: Store, limit: nat, n: nat, newestFirst: bool)
    requires Agree(s) && limit >= 1
    ensures var all := Listed(s, newestFirst);
            Pages(s, limit, n, newestFirst) == all[..Min(Offset(limit, n), |all|)]
  {
    if n > 0 {
      PagesUpTo(s, limit, n - 1, newestFirst);
      PageContinues(s, Offset(limit, n - 1), limit, newestFirst);
    }
  }

  /** Successive pages of an unchanging state partition the online chats: n pages are the first
      n * limit chats of the listing, and enough pages are all of it. */
  lemma PagesPartition(s: Store, limit: nat, n: nat, newestFirst: bool)
    requires Agree(s) && limit >= 1
    ensures var all := Listed(s, newestFirst);
            Pages(s, limit, n, newestFirst) == all[..Min(n * limit, |all|)]
  {
    OffsetIs(limit, n);
    PagesUpTo(s, limit, n, newestFirst);
  }

  lemma EnoughPages(s: Store, limit: nat, n: nat, newestFirst: bool)
    requires Agree(s) && limit >= 1 && n * limit >= |s.online|
    ensures Pages(s, limit, n, newestFirst) == Listed(s, newestFirst)
  {
    PagesPartition(s, limit, n, newestFirst);
    ListedIsOnline(s, newestFirst);
  }

  /** A page keeps within its limit exactly when the limit is positive, or is 0 at an offset other than
      0 or with nothing online.  At offset 0 a limit of 0 is the whole list; a negative limit is always
      exceeded, and from an offset of at least 0 lists all but the last few. */
  lemma PageLength(s: Store, offset: int, limit: int, newestFirst: bool)
    requires Agree(s)
    ensures |Page(s, offset, limit, newestFirst)| <= limit <==>
            limit >= 1 || (limit == 0 && (offset != 0 || s.online == {}))
    ensures offset == limit == 0 ==> Page(s, offset, limit, newestFirst) == Listed(s, newestFirst)
    ensures 0 <= offset < 1 - limit ==>
              |Page(s, offset, limit, newestFirst)| == Max(0, |s.online| + limit)
  {
    PageIsSlice(s, offset, limit, newestFirst);
    assert |Listed(s, newestFirst)| == |s.online| by { ListedIsOnline(s, newestFirst); }
    SliceLength(Listed(s, newestFirst), offset, limit);
    assert s.online != {} ==> |s.online| > 0;
  }

  lemma SliceLength<T>(r: seq<T>, offset: int, limit: int)
    ensures |Slice(r, offset, offset + limit - 1)| <= limit <==>
            limit >= 1 || (limit == 0 && (offset != 0 || r == []))
    ensures offset == limit == 0 ==> Slice(r, offset, offset + limit - 1) == r
    ensures 0 <= offset < 1 - limit ==> |Slice(r, offset, offset + limit - 1)| == Max(0, |r| + limit)
  {
  }

  function Max(a: int, b: int): int { if a > b then a else b }
}
