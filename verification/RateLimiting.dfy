/** The per-user rate limiter over whole timed runs: a counter whose key lives 60 seconds from the
    request that created it. */
module RateLimiting {
  import opened Listings
  import opened Options

  const WINDOW := 60.0

  /** A key of the store: its counter, and when it expires if a TTL was set. */
  datatype Entry = Entry(count: int, expires: Option<real>)

  type Keys = map<string, Entry>

  /** Is a key that expires at this time gone?  At the very instant, stores differ: edge says that this
      one still serves the key then. */
  predicate Gone(edge: bool, expires: real, now: real) { if edge then expires < now else expires <= now }

  /** The entry as a command at this time finds it. */
  function Found(edge: bool, keys: Keys, user: string, now: real): Option<Entry> {
    if user in keys && (keys[user].expires.Some? ==> !Gone(edge, keys[user].expires.value, now)) then Some(keys[user])
    else None
  }

  /** INCR */
  function Incr(e: Option<Entry>): Entry {
    match e
    case None => Entry(1, None)
    case Some(entry) => entry.(count := entry.count + 1)
  }

  /** EXPIRE key 60 NX: sets a TTL only where there is none. */
  function ExpireNx(e: Entry, now: real): Entry {
    if e.expires.None? then e.(expires := Some(now + WINDOW)) else e
  }

  function Hit(e: Option<Entry>, now: real): Entry { ExpireNx(Incr(e), now) }

  /** Did Redis answer?  A call that raises may nevertheless have been applied. */
  datatype Reply = Answered | Failed(applied: bool)

  class RateLimiter {
    const limit: int        // RATE_LIMIT_PER_MINUTE
    const edge: bool
    var keys: Keys

    constructor (limit: int, edge: bool)
      ensures this.limit == limit && this.edge == edge && keys == map[]
    {
      this.limit, this.edge, keys := limit, edge, map[];
    }

    /** check_rate_limit: when Redis does not answer, the request passes, counted or not. */
    method CheckRateLimit(user: string, now: real, reply: Reply) returns (allowed: bool)
      modifies this
      ensures keys == if reply == Failed(false) then old(keys)
                      else old(keys)[user := Hit(Found(edge, old(keys), user, now), now)]
      ensures allowed <==> reply.Failed? || keys[user].count <= limit
      ensures var served := user in old(keys) && (old(keys)[user].expires.None? || now < old(keys)[user].expires.value
                                                  || (edge && now == old(keys)[user].expires.value));
              reply != Failed(false) ==>
                && keys[user].count == (if served then old(keys)[user].count + 1 else 1)
                && keys[user].expires == if served && old(keys)[user].expires.Some? then old(keys)[user].expires
                                         else Some(now + 60.0)
    {
      if reply == Failed(false) {
        return true;
      }
      var entry := Incr(Found(edge, keys, user, now));
      entry := ExpireNx(entry, now);
      keys := keys[user := entry];
      allowed := reply.Failed? || !(entry.count > limit);
    }
  }

  // ----- one user among others

  datatype Request = Request(user: string, time: real)

  /** The replies to one user's requests within a run of everybody's. */
  function RepliesTo(edge: bool, limit: int, keys: Keys, reqs: seq<Request>, user: string): seq<bool>
    decreases |reqs|
  {
    if reqs == [] then []
    else
      var r := reqs[0];
      var entry := Hit(Found(edge, keys, r.user, r.time), r.time);
      (if r.user == user then [entry.count <= limit] else [])
      + RepliesTo(edge, limit, keys[r.user := entry], reqs[1..], user)
  }

  function TimesOf(reqs: seq<Request>, user: string): seq<real>
    decreases |reqs|
  {
    if reqs == [] then [] else (if reqs[0].user == user then [reqs[0].time] else []) + TimesOf(reqs[1..], user)
  }

  /** The same user alone, from an entry or from none. */
  function Replies(edge: bool, limit: int, keys: Keys, user: string, times: seq<real>): seq<bool>
    decreases |times|
  {
    if times == [] then []
    else
      var entry := Hit(Found(edge, keys, user, times[0]), times[0]);
      [entry.count <= limit] + Replies(edge, limit, map[user := entry], user, times[1..])
  }

  lemma OnlyOwnEntry(edge: bool, limit: int, keys: Keys, keys': Keys, user: string, times: seq<real>)
    requires user in keys <==> user in keys'
    requires user in keys ==> keys[user] == keys'[user]
    ensures Replies(edge, limit, keys, user, times) == Replies(edge, limit, keys', user, times)
  {
    if times != [] {
      assert Found(edge, keys, user, times[0]) == Found(edge, keys', user, times[0]);
    }
  }

  /** Users do not affect one another. */
  lemma {:induction false} UserAlone(edge: bool, limit: int, keys: Keys, reqs: seq<Request>, user: string)
    ensures RepliesTo(edge, limit, keys, reqs, user) == Replies(edge, limit, keys, user, TimesOf(reqs, user))
    decreases |reqs|
  {
    if reqs != [] {
      var r := reqs[0];
      var entry := Hit(Found(edge, keys, r.user, r.time), r.time);
      UserAlone(edge, limit, keys[r.user := entry], reqs[1..], user);
      if r.user == user {
        var rest := TimesOf(reqs[1..], user);
        assert ([r.time] + rest)[1..] == rest;
        OnlyOwnEntry(edge, limit, keys[user := entry], map[user := entry], user, rest);
      } else {
        assert TimesOf(reqs, user) == TimesOf(reqs[1..], user);
        OnlyOwnEntry(edge, limit, keys[r.user := entry], keys, user, TimesOf(reqs, user));
      }
    }
  }

  // ----- key lifetimes, declared

  predicate Ascending(times: seq<real>) { forall i, j | 0 <= i < j < |times| :: times[i] <= times[j] }

  /** The start of the key lifetime that the i-th request falls in: a request that finds the key of the
      last one gone opens a new one. */
  function Start(edge: bool, times: seq<real>, i: nat): real
    requires i < |times|
  {
    if i == 0 then times[0]
    else if Gone(edge, Start(edge, times, i - 1) + WINDOW, times[i]) then times[i]
    else Start(edge, times, i - 1)
  }

  /** The requests up to the i-th that share its lifetime. */
  function Peers(edge: bool, times: seq<real>, i: nat): set<nat>
    requires i < |times|
  {
    set j: nat | j <= i && Start(edge, times, j) == Start(edge, times, i)
  }

  lemma {:induction false} StartsAscend(edge: bool, times: seq<real>, j: nat, i: nat)
    requires Ascending(times) && j <= i < |times|
    ensures Start(edge, times, j) <= Start(edge, times, i) <= times[i]
    ensures Start(edge, times, j) == Start(edge, times, i)
            || Gone(edge, Start(edge, times, j) + WINDOW, Start(edge, times, i))
    ensures !Gone(edge, Start(edge, times, i) + WINDOW, times[i])
    decreases i
  {
    if j < i {
      StartsAscend(edge, times, j, i - 1);
    } else if i > 0 {
      StartsAscend(edge, times, i - 1, i - 1);
    }
  }

  lemma PeersGrow(edge: bool, times: seq<real>, i: nat)
    requires Ascending(times) && 0 < i < |times|
    ensures Peers(edge, times, i) ==
            if Gone(edge, Start(edge, times, i - 1) + WINDOW, times[i]) then {i} else Peers(edge, times, i - 1) + {i}
  {
    forall j: nat | j < i
      ensures Start(edge, times, j) <= Start(edge, times, i - 1) < Start(edge, times, i - 1) + WINDOW
    {
      StartsAscend(edge, times, j, i - 1);
    }
  }

  /** A lifetime is the 60 seconds from the request that opened it: of two successive requests the second
      shares the first's lifetime if and only if it comes less than 60 seconds after that request, or at 60
      seconds if the key is still served then; all requests between are of the same lifetime. */
  lemma LifetimeIsAMinute(edge: bool, times: seq<real>, i: nat)
    requires Ascending(times) && i + 1 < |times|
    ensures var o := Opener(edge, times, i);
            && o <= i && times[o] == Start(edge, times, o)
            && (o > 0 ==> Start(edge, times, o - 1) != Start(edge, times, o))
            && (forall k | o <= k <= i :: Start(edge, times, k) == times[o])
            && (Start(edge, times, i + 1) == Start(edge, times, i) <==>
                if edge then times[i + 1] <= times[o] + 60.0 else times[i + 1] < times[o] + 60.0)
  {
    OpenerStarts(edge, times, i);
  }

  lemma {:induction false} OpenerStarts(edge: bool, times: seq<real>, i: nat)
    requires Ascending(times) && i < |times|
    ensures var o := Opener(edge, times, i);
            && o <= i && times[o] == Start(edge, times, o)
            && (o > 0 ==> Start(edge, times, o - 1) < Start(edge, times, o))
            && (forall k | o <= k <= i :: Start(edge, times, k) == times[o])
    decreases i
  {
    StartsAscend(edge, times, i, i);
    if i > 0 {
      StartsAscend(edge, times, i - 1, i);
      OpenerStarts(edge, times, i - 1);
    }
  }

  predicate Admitted(edge: bool, limit: int, times: seq<real>, i: nat)
    requires i < |times|
  {
    |Peers(edge, times, i)| <= limit
  }

  // ----- each lifetime admits exactly its first requests

  /** The key after the first i requests. */
  function KeyAfter(edge: bool, user: string, times: seq<real>, i: nat): Keys
    requires i <= |times|
  {
    if i == 0 then map[] else map[user := Entry(|Peers(edge, times, i - 1)|, Some(Start(edge, times, i - 1) + WINDOW))]
  }

  lemma HitIs(edge: bool, user: string, times: seq<real>, i: nat)
    requires Ascending(times) && i < |times|
    ensures Hit(Found(edge, KeyAfter(edge, user, times, i), user, times[i]), times[i]) ==
            KeyAfter(edge, user, times, i + 1)[user]
  {
    if i == 0 {
      assert Peers(edge, times, 0) == {0};
    } else {
      PeersGrow(edge, times, i);
    }
  }

  lemma {:induction false} RepliesFrom(edge: bool, limit: int, user: string, times: seq<real>, i: nat, k: nat)
    requires Ascending(times) && i <= |times| && k < |times| - i
    ensures |Replies(edge, limit, KeyAfter(edge, user, times, i), user, times[i..])| == |times| - i
    ensures Replies(edge, limit, KeyAfter(edge, user, times, i), user, times[i..])[k] <==>
            |Peers(edge, times, i + k)| <= limit
    decreases |times| - i
  {
    HitIs(edge, user, times, i);
    assert times[i..][1..] == times[i + 1..];
    if k > 0 {
      RepliesFrom(edge, limit, user, times, i + 1, k - 1);
    } else {
      RepliesLength(edge, limit, KeyAfter(edge, user, times, i + 1), user, times[i + 1..]);
    }
  }

  lemma {:induction false} RepliesLength(edge: bool, limit: int, keys: Keys, user: string, times: seq<real>)
    ensures |Replies(edge, limit, keys, user, times)| == |times|
    decreases |times|
  {
    if times != [] {
      RepliesLength(edge, limit, map[user := Hit(Found(edge, keys, user, times[0]), times[0])], user, times[1..]);
    }
  }

  /** However the users' requests interleave, one is admitted exactly when it is among its user's
      first limit requests of the key lifetime it falls in; later ones neither pass nor prolong it. */
  lemma AdmitsFirstOfLifetime(edge: bool, limit: int, reqs: seq<Request>, user: string, i: nat)
    requires Ascending(TimesOf(reqs, user)) && i < |TimesOf(reqs, user)|
    ensures |RepliesTo(edge, limit, map[], reqs, user)| == |TimesOf(reqs, user)|
    ensures RepliesTo(edge, limit, map[], reqs, user)[i] <==> Admitted(edge, limit, TimesOf(reqs, user), i)
  {
    var times := TimesOf(reqs, user);
    UserAlone(edge, limit, map[], reqs, user);
    assert times[0..] == times;
    RepliesFrom(edge, limit, user, times, 0, i);
  }

  // ----- at most two limits in any minute

  /** The admitted requests in the closed minute that starts at x. */
  function AdmittedIn(edge: bool, limit: int, times: seq<real>, x: real): set<nat> {
    set i: nat | i < |times| && Admitted(edge, limit, times, i) && x <= times[i] <= x + 60.0
  }

  function OfLifetime(edge: bool, limit: int, times: seq<real>, s: real): set<nat> {
    set i: nat | i < |times| && Admitted(edge, limit, times, i) && Start(edge, times, i) == s
  }

  function Cap(limit: int): nat { if limit > 0 then limit else 0 }

  ghost function Greatest(s: set<nat>): (m: nat)
    requires s != {}
    ensures m in s && forall i | i in s :: i <= m
    decreases |s|
  {
    var x :| x in s;
    if s == {x} then x
    else
      var m := Greatest(s - {x});
      assert forall i | i in s :: i == x || i in s - {x};
      if x > m then x else m
  }

  /** One lifetime admits at most limit. */
  lemma LifetimeCap(edge: bool, limit: int, times: seq<real>, s: real)
    ensures |OfLifetime(edge, limit, times, s)| <= Cap(limit)
  {
    var a := OfLifetime(edge, limit, times, s);
    if a != {} {
      var m := Greatest(a);
      assert a <= Peers(edge, times, m);
      SubsetSize(a, Peers(edge, times, m));
    }
  }

  /** The most a closed minute can hold: two limits, or one less if the key of a lifetime is still
      served 60 seconds after the request that opened it. */
  function MinuteCap(edge: bool, limit: int): nat {
    if edge && limit > 0 then 2 * limit - 1 else 2 * Cap(limit)
  }

  /** Fixed windows, not sliding ones: every closed interval of 60 seconds holds at most two limits
      of admitted requests. */
  lemma TwoLimitsAMinute(edge: bool, limit: int, times: seq<real>, x: real)
    requires Ascending(times)
    ensures |AdmittedIn(edge, limit, times, x)| <= MinuteCap(edge, limit)
  {
    var a := AdmittedIn(edge, limit, times, x);
    if i :| i in a {
      var s := Start(edge, times, i);
      LifetimeCap(edge, limit, times, s);
      if j :| j in a && Start(edge, times, j) != s {
        Apart(edge, times, i, j);
        var first, last := if s < Start(edge, times, j) then i else j, if s < Start(edge, times, j) then j else i;
        TwoLifetimes(edge, limit, times, x, first, last);
      } else {
        assert a <= OfLifetime(edge, limit, times, s);
        SubsetSize(a, OfLifetime(edge, limit, times, s));
      }
    }
  }

  /** What a lifetime admits besides the request that opened it. */
  function Followers(edge: bool, limit: int, times: seq<real>, i: nat): set<nat>
    requires i < |times|
  {
    OfLifetime(edge, limit, times, Start(edge, times, i)) - {Opener(edge, times, i)}
  }

  lemma FollowersCap(edge: bool, limit: int, times: seq<real>, i: nat)
    requires Ascending(times) && i < |times| && Admitted(edge, limit, times, i)
    ensures limit > 0 && |Followers(edge, limit, times, i)| <= limit - 1
  {
    assert i in Peers(edge, times, i) && |Peers(edge, times, i)| > 0;
    LifetimeCap(edge, limit, times, Start(edge, times, i));
    OpenerAdmitted(edge, limit, times, i);
  }

  lemma TwoLifetimes(edge: bool, limit: int, times: seq<real>, x: real, i: nat, j: nat)
    requires Ascending(times) && i in AdmittedIn(edge, limit, times, x) && j in AdmittedIn(edge, limit, times, x)
    requires Start(edge, times, i) < Start(edge, times, j)
    ensures |AdmittedIn(edge, limit, times, x)| <= MinuteCap(edge, limit)
  {
    var earlier := if edge then Followers(edge, limit, times, i)
                   else OfLifetime(edge, limit, times, Start(edge, times, i));
    var later := OfLifetime(edge, limit, times, Start(edge, times, j));
    FollowersCap(edge, limit, times, i);
    LifetimeCap(edge, limit, times, Start(edge, times, i));
    LifetimeCap(edge, limit, times, Start(edge, times, j));
    forall k | k in AdmittedIn(edge, limit, times, x) ensures k in earlier + later {
      InOneOfTwo(edge, limit, times, x, i, j, k);
    }
    SubsetSize(AdmittedIn(edge, limit, times, x), earlier + later);
  }

  /** Of two lifetimes that a closed minute meets, the first was opened before it, if keys are served at
      the edge. */
  lemma OpenedBefore(times: seq<real>, x: real, i: nat, j: nat)
    requires Ascending(times) && i < |times| && j < |times| && x <= times[i] && times[j] <= x + WINDOW
    requires Start(true, times, i) < Start(true, times, j)
    ensures Opener(true, times, i) < |times| && times[Opener(true, times, i)] < x
  {
    Apart(true, times, i, j);
    OpenerAdmitted(true, 0, times, i);
  }

  lemma InOneOfTwo(edge: bool, limit: int, times: seq<real>, x: real, i: nat, j: nat, k: nat)
    requires Ascending(times) && k in AdmittedIn(edge, limit, times, x)
    requires i in AdmittedIn(edge, limit, times, x) && j in AdmittedIn(edge, limit, times, x)
    requires Start(edge, times, i) < Start(edge, times, j)
    ensures k in OfLifetime(edge, limit, times, Start(edge, times, i))
            || k in OfLifetime(edge, limit, times, Start(edge, times, j))
    ensures edge && k in OfLifetime(edge, limit, times, Start(edge, times, i)) ==> k in Followers(edge, limit, times, i)
  {
    if Start(edge, times, k) != Start(edge, times, i) {
      NoThirdLifetime(edge, times, x, i, j, k);
    } else if edge {
      OpenedBefore(times, x, i, j);
    }
  }

  /** The request that opened the i-th's lifetime. */
  function Opener(edge: bool, times: seq<real>, i: nat): nat
    requires i < |times|
  {
    if i == 0 || Gone(edge, Start(edge, times, i - 1) + WINDOW, times[i]) then i else Opener(edge, times, i - 1)
  }

  lemma {:induction false} OpenerAdmitted(edge: bool, limit: int, times: seq<real>, i: nat)
    requires Ascending(times) && i < |times|
    ensures var o := Opener(edge, times, i);
            && o <= i && times[o] == Start(edge, times, i)
            && (limit > 0 ==> o in OfLifetime(edge, limit, times, Start(edge, times, i)))
    decreases i
  {
    if i == 0 {
      assert Peers(edge, times, 0) == {0};
    } else if Gone(edge, Start(edge, times, i - 1) + WINDOW, times[i]) {
      PeersGrow(edge, times, i);
    } else {
      OpenerAdmitted(edge, limit, times, i - 1);
    }
  }

  /** A closed minute meets at most two lifetimes. */
  lemma NoThirdLifetime(edge: bool, times: seq<real>, x: real, i: nat, j: nat, k: nat)
    requires Ascending(times) && i < |times| && j < |times| && k < |times|
    requires x <= times[i] <= x + WINDOW && x <= times[j] <= x + WINDOW && x <= times[k] <= x + WINDOW
    requires Start(edge, times, i) != Start(edge, times, j) && Start(edge, times, i) != Start(edge, times, k)
    ensures Start(edge, times, j) == Start(edge, times, k)
  {
    Apart(edge, times, i, j);
    Apart(edge, times, i, k);
    Apart(edge, times, j, k);
  }

  lemma Apart(edge: bool, times: seq<real>, i: nat, j: nat)
    requires Ascending(times) && i < |times| && j < |times|
    ensures Start(edge, times, i) == Start(edge, times, j)
            || Gone(edge, Start(edge, times, i) + WINDOW, Start(edge, times, j))
            || Gone(edge, Start(edge, times, j) + WINDOW, Start(edge, times, i))
    ensures Start(edge, times, i) <= times[i] && !Gone(edge, Start(edge, times, i) + WINDOW, times[i])
    ensures Start(edge, times, j) <= times[j] && !Gone(edge, Start(edge, times, j) + WINDOW, times[j])
  {
    var first, last := if i <= j then i else j, if i <= j then j else i;
    StartsAscend(edge, times, first, last);
    StartsAscend(edge, times, first, first);
  }

  /** Each bound is reached: limit requests and, a minute after the first or, where the key is still
      served then, after the second, limit more. */
  function Burst(edge: bool, limit: nat): seq<real> {
    seq(2 * limit, i requires 0 <= i < 2 * limit =>
      if i >= limit then (if edge then 1.0 + WINDOW else WINDOW) else if edge && i > 0 then 1.0 else 0.0)
  }

  lemma {:induction false} BurstStart(edge: bool, limit: nat, i: nat)
    requires i < 2 * limit
    ensures Start(edge, Burst(edge, limit), i) == if i < limit then 0.0 else Burst(edge, limit)[limit]
    decreases i
  {
    if i > 0 { BurstStart(edge, limit, i - 1); }
  }

  lemma BurstAscends(edge: bool, limit: nat)
    ensures Ascending(Burst(edge, limit))
  {
  }

  lemma TwoLimitsReached(edge: bool, limit: nat)
    ensures var x := if edge then 1.0 else 0.0;
            Ascending(Burst(edge, limit)) && |AdmittedIn(edge, limit, Burst(edge, limit), x)| == MinuteCap(edge, limit)
  {
    var times, x := Burst(edge, limit), if edge then 1.0 else 0.0;
    BurstAscends(edge, limit);
    var all := Numbers(if edge && limit > 0 then 1 else 0, 2 * limit);
    forall i: nat ensures i in AdmittedIn(edge, limit, times, x) <==> i in all {
      if i < 2 * limit {
        BurstAdmitted(edge, limit, i);
        assert x <= times[i] <= x + WINDOW <==> !edge || i > 0;
      }
    }
    assert AdmittedIn(edge, limit, times, x) == all;
  }

  lemma BurstAdmitted(edge: bool, limit: nat, i: nat)
    requires i < 2 * limit
    ensures Admitted(edge, limit, Burst(edge, limit), i)
  {
    var times := Burst(edge, limit);
    forall j: nat | j < 2 * limit ensures Start(edge, times, j) == if j < limit then 0.0 else times[limit] {
      BurstStart(edge, limit, j);
    }
    var first := if i < limit then 0 else limit;
    assert Peers(edge, times, i) <= Numbers(first, first + limit);
    SubsetSize(Peers(edge, times, i), Numbers(first, first + limit));
  }

  function Numbers(lo: nat, hi: nat): (r: set<nat>)
    requires lo <= hi
    ensures |r| == hi - lo
    ensures forall i: nat :: i in r <==> lo <= i < hi
    decreases hi
  {
    if lo == hi then {} else Numbers(lo, hi - 1) + {hi - 1}
  }

  // ----- when one limit holds in every minute

  /** What the i-th request's lifetime admits from it on. */
  function Remaining(edge: bool, limit: int, times: seq<real>, i: nat): set<nat>
    requires i < |times|
  {
    set k: nat | i <= k && k in OfLifetime(edge, limit, times, Start(edge, times, i))
  }

  /** An admitted request comes within a minute of an admitted one of the lifetime before. */
  predicate Close(edge: bool, limit: int, times: seq<real>, i: nat, j: nat) {
    && i < j < |times| && Admitted(edge, limit, times, i) && Admitted(edge, limit, times, j)
    && Start(edge, times, i) != Start(edge, times, j) && times[j] <= times[i] + 60.0
  }

  /** The r-th request of a lifetime never comes within a minute of one that its own lifetime follows
      with more than limit - r, itself included. */
  ghost predicate Spaced(edge: bool, limit: int, times: seq<real>) {
    forall i, j: nat | Close(edge, limit, times, i, j) ::
      |Remaining(edge, limit, times, i)| + |Peers(edge, times, j)| <= limit
  }

  lemma DisjointSize(a: set<nat>, b: set<nat>)
    requires a * b == {}
    ensures |a + b| == |a| + |b|
  {
  }

  /** Of two close requests, what remains of the one's lifetime and what leads up to the other in its
      own is all admitted in one minute. */
  lemma CloseFits(edge: bool, limit: int, times: seq<real>, i: nat, j: nat, k: nat)
    requires Ascending(times) && Close(edge, limit, times, i, j)
    ensures k in Remaining(edge, limit, times, i) ==> k in AdmittedIn(edge, limit, times, times[i])
    ensures k in Peers(edge, times, j) ==> k in AdmittedIn(edge, limit, times, times[i])
    ensures !(k in Remaining(edge, limit, times, i) && k in Peers(edge, times, j))
  {
    StartsAscend(edge, times, i, j);
    if k in Remaining(edge, limit, times, i) && k > j { StartsAscend(edge, times, j, k); }
    if k in Peers(edge, times, j) {
      if k < i { StartsAscend(edge, times, k, i); }
      SubsetSize(Peers(edge, times, k), Peers(edge, times, j));
    }
  }

  lemma OneLimitNeedsSpace(edge: bool, limit: int, times: seq<real>, i: nat, j: nat)
    requires Ascending(times) && Close(edge, limit, times, i, j)
    requires |AdmittedIn(edge, limit, times, times[i])| <= Cap(limit)
    ensures |Remaining(edge, limit, times, i)| + |Peers(edge, times, j)| <= limit
  {
    var a, b := Remaining(edge, limit, times, i), Peers(edge, times, j);
    forall k: nat
      ensures k in a + b ==> k in AdmittedIn(edge, limit, times, times[i])
      ensures !(k in a && k in b)
    {
      CloseFits(edge, limit, times, i, j, k);
    }
    assert a * b == {};
    DisjointSize(a, b);
    SubsetSize(a + b, AdmittedIn(edge, limit, times, times[i]));
    FollowersCap(edge, limit, times, i);
  }

  ghost function Least(s: set<nat>): (m: nat)
    requires s != {}
    ensures m in s && forall i | i in s :: m <= i
    decreases |s|
  {
    var x :| x in s;
    if s == {x} then x
    else
      var m := Least(s - {x});
      assert forall i | i in s :: i == x || i in s - {x};
      if x < m then x else m
  }

  /** A minute that meets two lifetimes holds no more than what remains of the first from its first
      request there on, and what leads up to its last one in the second. */
  lemma SpacedMinute(edge: bool, limit: int, times: seq<real>, x: real, p: nat, q: nat)
    requires Ascending(times) && Spaced(edge, limit, times)
    requires p in AdmittedIn(edge, limit, times, x) && q in AdmittedIn(edge, limit, times, x)
    requires Start(edge, times, p) < Start(edge, times, q)
    ensures |AdmittedIn(edge, limit, times, x)| <= limit
  {
    var a := AdmittedIn(edge, limit, times, x);
    var first := set k | k in a && Start(edge, times, k) == Start(edge, times, p);
    var second := set k | k in a && Start(edge, times, k) == Start(edge, times, q);
    assert p in first && q in second;
    var i, j := Least(first), Greatest(second);
    if j <= i { StartsAscend(edge, times, j, i); }
    assert Close(edge, limit, times, i, j);
    forall k | k in a ensures k in Remaining(edge, limit, times, i) + Peers(edge, times, j) {
      if Start(edge, times, k) != Start(edge, times, p) { NoThirdLifetime(edge, times, x, p, q, k); }
      assert k in first || k in second;
    }
    SubsetSize(a, Remaining(edge, limit, times, i) + Peers(edge, times, j));
  }

  /** One limit holds in every closed minute, as a sliding window promises, exactly when the lifetimes are
      spaced: no request comes within a minute of too early a one of the lifetime before. */
  lemma OneLimitExactly(edge: bool, limit: int, times: seq<real>)
    requires Ascending(times)
    ensures (forall x :: |AdmittedIn(edge, limit, times, x)| <= Cap(limit)) <==> Spaced(edge, limit, times)
  {
    if forall x :: |AdmittedIn(edge, limit, times, x)| <= Cap(limit) {
      forall i, j: nat | Close(edge, limit, times, i, j)
        ensures |Remaining(edge, limit, times, i)| + |Peers(edge, times, j)| <= limit
      {
        OneLimitNeedsSpace(edge, limit, times, i, j);
      }
    }
    if Spaced(edge, limit, times) {
      forall x ensures |AdmittedIn(edge, limit, times, x)| <= Cap(limit) {
        SpacedKeepsLimit(edge, limit, times, x);
      }
    }
  }

  lemma SpacedKeepsLimit(edge: bool, limit: int, times: seq<real>, x: real)
    requires Ascending(times) && Spaced(edge, limit, times)
    ensures |AdmittedIn(edge, limit, times, x)| <= Cap(limit)
  {
    var a := AdmittedIn(edge, limit, times, x);
    if p :| p in a {
      if q :| q in a && Start(edge, times, q) != Start(edge, times, p) {
        if Start(edge, times, p) < Start(edge, times, q) {
          SpacedMinute(edge, limit, times, x, p, q);
        } else {
          SpacedMinute(edge, limit, times, x, q, p);
        }
      } else {
        LifetimeCap(edge, limit, times, Start(edge, times, p));
        SubsetSize(a, OfLifetime(edge, limit, times, Start(edge, times, p)));
      }
    }
  }
}
