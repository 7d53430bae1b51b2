/** The consumer's module state, updated in place: each method is the code between two
    suspension points, and makes exactly one step of the protocol. */
module KafkaConsumer {
  import opened Options
  import opened Dispatcher
  import DI = DispatcherInvariants

  class Consumer {
    const input: seq<Record>
    var next: nat
    var loop: Loop
    var convQueues: map<string, nat>      // queues and tasks are named in order of creation
    var convWorkers: map<string, nat>
    var names: seq<string>                // the conversation each worker was created for
    var contents: seq<seq<Item>>          // what each queue holds now
    var tasks: seq<Worker>                // where each worker is suspended
    var permits: nat
    var stop: Stop
    ghost var taken: seq<seq<Item>>       // what has been taken from each queue
    ghost var dispatched: seq<nat>

    ghost predicate Aligned()
      reads this
    {
      |names| == |contents| == |tasks| == |taken|
    }

    ghost function View(): State
      requires Aligned()
      reads this
    {
      State(next, loop, Channels(names, taken, contents, tasks), convQueues, convWorkers, permits, dispatched, stop)
    }

    /** What every step keeps: one worker for a conversation, order, bounds, permits, and a place for
        every accepted payload. */
    ghost predicate Valid()
      reads this
    {
      Aligned() && DI.Inv(input, View())
    }

    constructor (input: seq<Record>)
      ensures Valid() && this.input == input && View() == INITIAL
    {
      this.input := input;
      next, loop, permits, stop := 0, Idle, MAX_CONCURRENT_CONVS, Running;
      convQueues, convWorkers := map[], map[];
      names, contents, tasks, taken, dispatched := [], [], [], [], [];
      new;
      DI.InvInitial(input);
    }

    // ----- the moves the steps are made of

    /** `queue.put` with room. */
    method Append(q: nat, item: Item)
      requires Aligned() && q < |View().chans|
      modifies this`contents
      ensures Aligned() && View() == Dispatcher.Append(old(View()), q, item)
      ensures contents == old(contents)[q := old(contents[q]) + [item]]
    {
      ghost var before := View().chans;
      contents := contents[q := contents[q] + [item]];
      PutChannel(names, taken, contents, tasks, before, q, item);
    }

    /** `queue.get` with an item there. */
    method Pop(q: nat) returns (item: Item)
      requires Aligned() && q < |View().chans| && Depth(View().chans[q]) > 0
      modifies this`contents, this`taken
      ensures Aligned()
      ensures item == NextItem(old(View()), q) && View() == Popped(old(View()), q)
    {
      ghost var before := View().chans;
      item := contents[q][0];
      assert item == before[q].items[before[q].head];
      ghost var all := taken[q] + contents[q];
      taken := taken[q := taken[q] + [item]];
      contents := contents[q := contents[q][1..]];
      assert taken[q] + contents[q] == all;
      assert View().chans == before[q := before[q].(head := before[q].head + 1)];
    }

    method SetTask(q: nat, w: Worker)
      requires Aligned() && q < |View().chans|
      modifies this`tasks
      ensures Aligned() && View() == SetWorker(old(View()), q, w) && tasks == old(tasks)[q := w]
    {
      ghost var before := View().chans;
      tasks := tasks[q := w];
      assert View().chans == before[q := before[q].(worker := w)];
    }

    method StartHandler(q: nat, off: nat)
      requires Aligned() && q < |View().chans|
      modifies this
      ensures Aligned() && View() == Begun(old(View()), q, off)
    {
      SetTask(q, Handling(off));
      dispatched := dispatched + [off];
    }

    /** The clean-up after the sentinel. */
    method EndWorker(q: nat)
      requires Aligned() && q < |View().chans|
      modifies this
      ensures Aligned() && View() == Ended(old(View()), q)
    {
      SetTask(q, Exited);
      convQueues := convQueues - {names[q]};
      convWorkers := convWorkers - {names[q]};
      permits := permits + 1;
    }

    method FindOrCreateQueue(key: string)
      requires Aligned()
      modifies this
      ensures Aligned() && View() == WithQueue(old(View()), key)
      ensures key in convQueues && (key in old(convQueues) ==> convQueues == old(convQueues))
      ensures key !in old(convQueues) ==> convQueues[key] == |old(contents)| && contents == old(contents) + [[]]
    {
      if key !in convQueues {
        CreateChannel(names, taken, contents, tasks, key);
        convQueues := convQueues[key := |contents|];
        convWorkers := convWorkers[key := |contents|];
        names, contents, tasks, taken := names + [key], contents + [[]], tasks + [WaitPermit], taken + [[]];
      }
    }

    method PutRecord(q: nat)
      requires Aligned() && q < |View().chans|
      modifies this
      ensures Aligned() && View() == PutNext(old(View()), q)
      ensures next == old(next) + 1
      ensures loop == (if |old(contents[q])| >= 100 then Blocked(q, old(next)) else old(loop))
      ensures contents[q] == old(contents[q]) + (if |old(contents[q])| >= 100 then [] else [Payload(old(next))])
    {
      if |contents[q]| >= MAX_QUEUE_SIZE {
        loop := Blocked(q, next);
      } else {
        Append(q, Payload(next));
      }
      next := next + 1;
    }

    // ----- the steps

    /** A record without key or value, or one that does not decode. */
    method SkipRecord()
      requires Valid() && Enabled(input, View(), Skip)
      modifies this
      ensures Valid() && View() == Next(input, old(View()), Skip)
    {
      DI.InvStep(input, View(), Skip);
      next := next + 1;
    }

    /** The body of the consume loop, up to its `put`. */
    method AcceptRecord()
      requires Valid() && Enabled(input, View(), Accept)
      modifies this
      ensures Valid() && View() == Next(input, old(View()), Accept)
      ensures var key := input[old(next)].key;
              loop.Blocked? <==> key in old(convQueues) && |old(contents)[old(convQueues)[key]]| >= 100
    {
      DI.InvStep(input, View(), Accept);
      var key := input[next].key;
      FindOrCreateQueue(key);
      PutRecord(convQueues[key]);
    }

    /** The loop's blocked `put` finds room in the queue it holds. */
    method ResumePut()
      requires Valid() && Enabled(input, View(), Label.ResumePut)
      modifies this
      ensures Valid() && View() == Next(input, old(View()), Label.ResumePut)
    {
      DI.InvStep(input, View(), Label.ResumePut);
      Append(loop.target, Payload(loop.off));
      loop := Idle;
    }

    method AcquirePermit(q: nat)
      requires Valid() && Enabled(input, View(), Acquire(q))
      modifies this
      ensures Valid() && View() == Next(input, old(View()), Acquire(q))
    {
      DI.InvStep(input, View(), Acquire(q));
      permits := permits - 1;
      SetTask(q, WaitItem);
    }

    /** `queue.get()` returns; on the sentinel the worker clears both entries and gives back its permit. */
    method GetItem(q: nat)
      requires Valid() && Enabled(input, View(), Take(q))
      modifies this
      ensures Valid() && View() == Next(input, old(View()), Take(q))
    {
      DI.InvStep(input, View(), Take(q));
      TakeIs(input, View(), q);
      var item := Pop(q);
      match item {
        case Payload(off) => StartHandler(q, off);
        case Sentinel => EndWorker(q);
      }
    }

    /** The handler returned or raised; a chat_end that returned is followed by the sentinel. */
    method HandlerDone(q: nat, ok: bool)
      requires Valid() && Enabled(input, View(), Finish(q, ok))
      modifies this
      ensures Valid() && View() == Next(input, old(View()), Finish(q, ok))
    {
      DI.InvStep(input, View(), Finish(q, ok));
      var rec := input[tasks[q].off];
      var after := WaitItem;
      if ok && rec.Event? && rec.kind == ChatEnd && names[q] in convQueues {
        var t := convQueues[names[q]];
        if |contents[t]| >= MAX_QUEUE_SIZE {
          after := PuttingSentinel(t);
        } else {
          Append(t, Sentinel);
        }
      }
      SetTask(q, after);
    }

    /** The completion of a worker's blocked put.  No valid state enables it: the worker that would make
        the room is the one that waits. */
    method ResumeSentinel(q: nat)
      requires Aligned() && Enabled(input, View(), Label.ResumeSentinel(q))
      modifies this
      ensures Aligned() && View() == Next(input, old(View()), Label.ResumeSentinel(q))
    {
      Append(tasks[q].target, Sentinel);
      SetTask(q, WaitItem);
    }

    /** stop_consumer cancels the loop; a payload waiting in a blocked `put` goes with it. */
    method CancelLoop()
      requires Valid() && Enabled(input, View(), StopCancel)
      modifies this
      ensures Valid() && View() == Next(input, old(View()), StopCancel)
    {
      DI.InvStep(input, View(), StopCancel);
      stop := Cancelling;
      match loop {
        case Blocked(_, off) => loop := Cancelled(Some(off));
        case Idle => loop := Cancelled(None);
        case Cancelled(_) =>
      }
    }

    /** stop_consumer lists the queues it will send sentinels to. */
    method SnapshotQueues(order: seq<nat>)
      requires Valid() && Enabled(input, View(), StopSnapshot(order))
      modifies this
      ensures Valid() && View() == Next(input, old(View()), StopSnapshot(order))
    {
      DI.InvStep(input, View(), StopSnapshot(order));
      stop := Stopping(order);
    }

    method PutStopSentinel()
      requires Valid() && Enabled(input, View(), StopPut)
      modifies this
      ensures Valid() && View() == Next(input, old(View()), StopPut)
    {
      DI.InvStep(input, View(), StopPut);
      Append(stop.todo[0], Sentinel);
      stop := Stopping(stop.todo[1..]);
    }
  }

  function NextItem(s: State, q: nat): Item
    requires q < |s.chans| && Depth(s.chans[q]) > 0
  {
    s.chans[q].items[s.chans[q].head]
  }

  function Popped(s: State, q: nat): State
    requires q < |s.chans|
  {
    s.(chans := s.chans[q := s.chans[q].(head := s.chans[q].head + 1)])
  }

  function Begun(s: State, q: nat, off: nat): State
    requires q < |s.chans|
  {
    SetWorker(s, q, Handling(off)).(dispatched := s.dispatched + [off])
  }

  function Ended(s: State, q: nat): State
    requires q < |s.chans|
  {
    SetWorker(s, q, Exited).(queues := s.queues - {s.chans[q].key}, workers := s.workers - {s.chans[q].key},
                             permits := s.permits + 1)
  }

  lemma TakeIs(input: seq<Record>, s: State, q: nat)
    requires Enabled(input, s, Take(q))
    ensures Next(input, s, Take(q)) ==
            match NextItem(s, q)
            case Payload(off) => Begun(Popped(s, q), q, off)
            case Sentinel => Ended(Popped(s, q), q)
  {
  }

  function Channels(names: seq<string>, taken: seq<seq<Item>>, contents: seq<seq<Item>>,
                    tasks: seq<Worker>): seq<Channel>
    requires |names| == |contents| == |tasks| == |taken|
  {
    seq(|names|, q requires 0 <= q < |names| => Channel(names[q], taken[q] + contents[q], |taken[q]|, tasks[q]))
  }

  lemma CreateChannel(names: seq<string>, taken: seq<seq<Item>>, contents: seq<seq<Item>>, tasks: seq<Worker>,
                      key: string)
    requires |names| == |contents| == |tasks| == |taken|
    ensures Channels(names + [key], taken + [[]], contents + [[]], tasks + [WaitPermit]) ==
            Channels(names, taken, contents, tasks) + [Channel(key, [], 0, WaitPermit)]
  {
    var none: seq<Item> := [];
    assert none + none == [];
  }

  lemma PutChannel(names: seq<string>, taken: seq<seq<Item>>, contents: seq<seq<Item>>, tasks: seq<Worker>,
                   before: seq<Channel>, q: nat, item: Item)
    requires |names| == |contents| == |tasks| == |taken| == |before| && q < |names|
    requires contents[q] != [] && contents[q][|contents[q]| - 1] == item
    requires before == Channels(names, taken, contents[q := contents[q][..|contents[q]| - 1]], tasks)
    ensures Channels(names, taken, contents, tasks) == before[q := before[q].(items := before[q].items + [item])]
  {
    assert taken[q] + contents[q] == taken[q] + contents[q][..|contents[q]| - 1] + [item];
  }
}
