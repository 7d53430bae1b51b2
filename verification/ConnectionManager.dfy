/** The gateway's connection manager and the keys it keeps in the registry, updated in place: each
    method is the code between two suspension points, and makes one step of the timed protocol. */
module WebsocketManager {
  import opened Options
  import opened ConnectionLiveness

  class ConnectionManager {
    var connections: map<Conv, nat>
    var lastSeen: map<Conv, real>
    var sendLocks: map<Conv, nat>
    var keys: map<Conv, real>            // ws:conn:* and their expiry
    var now: real
    var sweep: Option<Sweep>             // the eviction loop's list, while it runs
    ghost var registering: multiset<Conv>
    ghost var refreshing: multiset<Conv>
    ghost var unregistering: multiset<Conv>
    ghost var registered: set<Conv>
    ghost var unrefreshed: map<Conv, real>
    ghost var swept: real

    ghost function View(): State
      reads this
    {
      State(now, connections, lastSeen, sendLocks, keys, registering, refreshing, unregistering, registered,
            unrefreshed, sweep, swept)
    }

    /** What holds at every suspension point, whatever overlaps and however late. */
    ghost predicate Valid()
      reads this
    {
      TablesFit(View()) && SeenSince(View())
    }

    /** What holds while connects and disconnects do not overlap, EXPIREs land within d and sweeps are
        frequent enough: every registered connection's key outlives it. */
    ghost predicate Safe(d: real)
      reads this
    {
      Inv(d, View())
    }

    ghost predicate SafeInTime(d: real)
      reads this
    {
      d >= 0.0 && Inv(d, View()) && Timely(d, View())
    }

    constructor (start: real)
      ensures Valid() && View() == Init(start) && forall d :: Safe(d)
    {
      connections, lastSeen, sendLocks, keys := map[], map[], map[], map[];
      now, sweep, swept := start, None, start;
      registering, refreshing, unregistering := multiset{}, multiset{}, multiset{};
      registered, unrefreshed := {}, map[];
    }

    method Pop(conv: Conv)
      modifies this
      ensures View() == Popped(old(View()), conv)
    {
      connections := connections - {conv};
      lastSeen := lastSeen - {conv};
      sendLocks := sendLocks - {conv};
      registered := registered - {conv};
    }

    /** connect: an existing socket leaves the tables before it is closed. */
    method CloseExisting(conv: Conv)
      requires Valid()
      modifies this
      ensures Valid() && forall d | old(SafeInTime(d)) :: Safe(d)
      ensures View() == if conv in old(connections) then Next(old(View()), Label.ForceClose(conv)) else old(View())
    {
      if conv in connections {
        StepKeeps(View(), Label.ForceClose(conv));
        Pop(conv);
      }
    }

    /** connect, from the accept to the registry call. */
    method Connect(conv: Conv, socket: nat, lock: nat)
      requires Valid()
      modifies this
      ensures Valid() && (conv !in old(unregistering) ==> forall d | old(SafeInTime(d)) :: Safe(d))
      ensures View() == Next(old(View()), Label.Accept(conv, socket, lock))
    {
      ghost var s := View();
      StepKeeps(View(), Label.Accept(conv, socket, lock));
      connections := connections[conv := socket];
      lastSeen := lastSeen[conv := now];
      sendLocks := sendLocks[conv := lock];
      registering := registering + multiset{conv};
      registered := registered - {conv};
      assert View() == Accepted(s, conv, socket, lock);
    }

    method SetKey(conv: Conv)
      modifies this`keys, this`unrefreshed
      ensures View() == KeySet(old(View()), conv) && keys == old(keys)[conv := now + 300.0]
    {
      keys := keys[conv := now + TTL_SECONDS];
      unrefreshed := unrefreshed - {conv};
    }

    /** register_connection lands, and connect returns. */
    method RegisterConnection(conv: Conv)
      requires Valid() && Enabled(View(), Label.Register(conv))
      modifies this
      ensures Valid() && forall d | old(SafeInTime(d)) :: Safe(d)
      ensures View() == Next(old(View()), Label.Register(conv))
    {
      ghost var s := View();
      StepKeeps(View(), Label.Register(conv));
      SetKey(conv);
      registering := registering - multiset{conv};
      registered := if conv in connections then registered + {conv} else registered;
      assert View() == SetLanded(s, conv);
    }

    method Heartbeat(conv: Conv)
      requires Valid()
      modifies this
      ensures Valid() && forall d | old(SafeInTime(d)) :: Safe(d)
      ensures View() == Next(old(View()), Label.Heartbeat(conv))
    {
      StepKeeps(View(), Label.Heartbeat(conv));
      lastSeen := lastSeen[conv := now];
      refreshing := refreshing + multiset{conv};
      unrefreshed := if conv in unrefreshed then unrefreshed else unrefreshed[conv := now];
    }

    /** refresh_connection_ttl lands: EXPIRE leaves a key that is gone alone. */
    method RefreshConnectionTtl(conv: Conv)
      requires Valid() && Enabled(View(), Label.Refresh(conv))
      modifies this
      ensures Valid() && forall d | old(SafeInTime(d)) :: Safe(d)
      ensures View() == Next(old(View()), Label.Refresh(conv))
    {
      ghost var s := View();
      StepKeeps(View(), Label.Refresh(conv));
      if conv in keys && now < keys[conv] {
        SetKey(conv);
      } else {
        unrefreshed := unrefreshed - {conv};
      }
      refreshing := refreshing - multiset{conv};
      assert View() == ExpireLanded(s, conv);
    }

    /** disconnect, up to the registry call. */
    method Disconnect(conv: Conv)
      requires Valid()
      modifies this
      ensures Valid() && forall d | old(SafeInTime(d)) :: Safe(d)
      ensures View() == Next(old(View()), Label.Disconnect(conv))
    {
      StepKeeps(View(), Label.Disconnect(conv));
      Pop(conv);
      unregistering := unregistering + multiset{conv};
    }

    method UnregisterConnection(conv: Conv)
      requires Valid() && Enabled(View(), Label.Unregister(conv))
      modifies this
      ensures Valid() && forall d | old(SafeInTime(d)) :: Safe(d)
      ensures View() == Next(old(View()), Label.Unregister(conv))
    {
      StepKeeps(View(), Label.Unregister(conv));
      keys := keys - {conv};
      unregistering := unregistering - multiset{conv};
    }

    method GetStaleConnections() returns (stale: set<Conv>)
      ensures forall c :: c in stale <==> c in lastSeen && now - lastSeen[c] > 120.0
    {
      stale := set cid | cid in lastSeen && now - lastSeen[cid] > STALE_TIMEOUT_SECONDS;
    }

    /** The eviction loop draws up its list. */
    method StartSweep()
      requires Valid() && Enabled(View(), Label.SweepRead)
      modifies this
      ensures Valid() && forall d | old(SafeInTime(d)) :: Safe(d)
      ensures View() == Next(old(View()), Label.SweepRead)
    {
      StepKeeps(View(), Label.SweepRead);
      var stale := GetStaleConnections();
      assert stale == Stale(View());
      sweep := Some(Sweep(now, stale));
    }

    /** The eviction loop disconnects the next one. */
    method Evict(conv: Conv)
      requires Valid() && Enabled(View(), Label.Evict(conv))
      modifies this
      ensures Valid() && forall d | old(SafeInTime(d)) :: Safe(d)
      ensures View() == Next(old(View()), Label.Evict(conv))
    {
      StepKeeps(View(), Label.Evict(conv));
      sweep := Some(sweep.value.(left := sweep.value.left - {conv}));
      Pop(conv);
      unregistering := unregistering + multiset{conv};
    }

    method FinishSweep()
      requires Valid() && Enabled(View(), Label.SweepDone)
      modifies this
      ensures Valid() && forall d | old(SafeInTime(d)) :: Safe(d)
      ensures View() == Next(old(View()), Label.SweepDone)
    {
      StepKeeps(View(), Label.SweepDone);
      swept := sweep.value.at;
      sweep := None;
    }
  }
}
