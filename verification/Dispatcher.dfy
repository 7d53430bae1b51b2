/** The per-conversation dispatcher as a protocol over its atomic steps: one consume
    loop, one bounded queue and one worker per conversation, a permit semaphore, and a
    sentinel that ends a worker.  A step is the code between two suspension points. */
module Dispatcher {
  import opened Options

  const MAX_QUEUE_SIZE: nat := 100
  const MAX_CONCURRENT_CONVS: nat := 10_000

  datatype Kind = ChatEnd | Transfer | OtherEvent | UnknownEvent

  /** One Kafka record: skipped (no key, no value, undecodable), or an event. */
  datatype Record = Skipped | Event(key: string, kind: Kind)

  /** A queue item; a payload is named by the position of its record in the input. */
  datatype Item = Payload(off: nat) | Sentinel

  datatype Worker =
    | WaitPermit                      // before `async with _worker_semaphore`
    | WaitItem                        // before or inside `queue.get()`
    | Handling(off: nat)              // inside the handler of that payload
    | PuttingSentinel(target: nat)    // inside `q.put(None)` on a full queue
    | Exited

  /** A queue and its worker, which are created together.  `items` is everything ever
      put, in order; the first `head` of them have been taken. */
  datatype Channel = Channel(key: string, items: seq<Item>, head: nat, worker: Worker)

  datatype Loop =
    | Idle
    | Blocked(target: nat, off: nat)  // inside `put` on a full queue, holding its reference
    | Cancelled(dropped: Option<nat>)

  datatype Stop = Running | Cancelling | Stopping(todo: seq<nat>)

  datatype State = State(
    next: nat,                        // records consumed
    loop: Loop,
    chans: seq<Channel>,              // in order of creation
    queues: map<string, nat>,         // _conv_queues
    workers: map<string, nat>,        // _conv_workers
    permits: nat,
    dispatched: seq<nat>,             // payloads passed to _dispatch, in order
    stop: Stop)

  datatype Label =
    | Skip
    | Accept
    | ResumePut
    | Acquire(q: nat)
    | Take(q: nat)
    | Finish(q: nat, ok: bool)
    | ResumeSentinel(q: nat)
    | StopCancel
    | StopSnapshot(order: seq<nat>)
    | StopPut

  const INITIAL := State(0, Idle, [], map[], map[], MAX_CONCURRENT_CONVS, [], Running)

  function Depth(c: Channel): int { |c.items| - c.head }

  predicate Full(c: Channel) { Depth(c) >= MAX_QUEUE_SIZE }

  predicate Live(c: Channel) { !c.worker.Exited? }

  predicate Holder(c: Channel) {
    c.worker.WaitItem? || c.worker.Handling? || c.worker.PuttingSentinel?
  }

  predicate AtWorker(s: State, q: nat) { q < |s.chans| }

  function Elements(r: seq<nat>): set<nat> { set q | q in r }

  predicate Enabled(input: seq<Record>, s: State, l: Label) {
    match l
    case Skip => s.loop.Idle? && s.next < |input| && input[s.next].Skipped?
    case Accept => s.loop.Idle? && s.next < |input| && input[s.next].Event?
                   && (input[s.next].key in s.queues ==> s.queues[input[s.next].key] < |s.chans|)
    case ResumePut => s.loop.Blocked? && AtWorker(s, s.loop.target) && !Full(s.chans[s.loop.target])
    case Acquire(q) => AtWorker(s, q) && s.chans[q].worker.WaitPermit? && s.permits > 0
    case Take(q) => AtWorker(s, q) && s.chans[q].worker.WaitItem? && Depth(s.chans[q]) > 0
    case Finish(q, ok) => AtWorker(s, q) && s.chans[q].worker.Handling? && s.chans[q].worker.off < |input|
                          && (s.chans[q].key in s.queues ==> s.queues[s.chans[q].key] < |s.chans|)
    case ResumeSentinel(q) => AtWorker(s, q) && s.chans[q].worker.PuttingSentinel?
                              && AtWorker(s, s.chans[q].worker.target) && !Full(s.chans[s.chans[q].worker.target])
    case StopCancel => s.stop.Running?
    case StopSnapshot(order) => s.stop.Cancelling? && Elements(order) == s.queues.Values && |order| == |s.queues|
                                && forall q | q in order :: q < |s.chans|
    case StopPut => s.stop.Stopping? && s.stop.todo != []
                    && AtWorker(s, s.stop.todo[0]) && !Full(s.chans[s.stop.todo[0]])
  }

  function Append(s: State, q: nat, item: Item): State
    requires q < |s.chans|
  {
    s.(chans := s.chans[q := s.chans[q].(items := s.chans[q].items + [item])])
  }

  function SetWorker(s: State, q: nat, w: Worker): State
    requires q < |s.chans|
  {
    s.(chans := s.chans[q := s.chans[q].(worker := w)])
  }

  /** Lines 127-137: a queue and a worker for the conversation, if it has none. */
  function WithQueue(s: State, key: string): State {
    if key in s.queues then s
    else s.(chans := s.chans + [Channel(key, [], 0, WaitPermit)],
            queues := s.queues[key := |s.chans|],
            workers := s.workers[key := |s.chans|])
  }

  /** Line 139: put the record just read, or block on the queue when it is full. */
  function PutNext(s: State, q: nat): State
    requires q < |s.chans|
  {
    var s1 := if Full(s.chans[q]) then s.(loop := Blocked(q, s.next)) else Append(s, q, Payload(s.next));
    s1.(next := s.next + 1)
  }

  function AcceptNext(s: State, key: string): State
    requires key in s.queues ==> s.queues[key] < |s.chans|
  {
    var s1 := WithQueue(s, key);
    PutNext(s1, s1.queues[key])
  }

  /** Lines 48-61 and 64-65: take the next item; the sentinel ends the worker. */
  function TakeNext(s: State, q: nat): State
    requires AtWorker(s, q) && Depth(s.chans[q]) > 0
  {
    var c := s.chans[q];
    match c.items[c.head]
    case Payload(off) =>
      s.(chans := s.chans[q := c.(head := c.head + 1, worker := Handling(off))],
         dispatched := s.dispatched + [off])
    case Sentinel =>
      s.(chans := s.chans[q := c.(head := c.head + 1, worker := Exited)],
         queues := s.queues - {c.key}, workers := s.workers - {c.key}, permits := s.permits + 1)
  }

  /** Lines 55-61 and 85-88: the handler returns or raises; after a chat_end that
      returned, the sentinel goes to the conversation's current queue. */
  function FinishHandler(input: seq<Record>, s: State, q: nat, ok: bool): State
    requires AtWorker(s, q) && s.chans[q].worker.Handling? && s.chans[q].worker.off < |input|
    requires s.chans[q].key in s.queues ==> s.queues[s.chans[q].key] < |s.chans|
  {
    var c := s.chans[q];
    var rec := input[c.worker.off];
    if ok && rec.Event? && rec.kind.ChatEnd? && c.key in s.queues then
      var t := s.queues[c.key];
      if Full(s.chans[t]) then SetWorker(s, q, PuttingSentinel(t))
      else SetWorker(Append(s, t, Sentinel), q, WaitItem)
    else SetWorker(s, q, WaitItem)
  }

  function Next(input: seq<Record>, s: State, l: Label): State
    requires Enabled(input, s, l)
  {
    match l
    case Skip => s.(next := s.next + 1)
    case Accept => AcceptNext(s, input[s.next].key)
    case ResumePut => Append(s, s.loop.target, Payload(s.loop.off)).(loop := Idle)
    case Acquire(q) => SetWorker(s, q, WaitItem).(permits := s.permits - 1)
    case Take(q) => TakeNext(s, q)
    case Finish(q, ok) => FinishHandler(input, s, q, ok)
    case ResumeSentinel(q) => SetWorker(Append(s, s.chans[q].worker.target, Sentinel), q, WaitItem)
    case StopCancel => s.(stop := Cancelling,
                          loop := Cancelled(match s.loop
                                            case Blocked(_, off) => Some(off)
                                            case Idle => None
                                            case Cancelled(d) => d))
    case StopSnapshot(order) => s.(stop := Stopping(order))
    case StopPut => Append(s, s.stop.todo[0], Sentinel).(stop := Stopping(s.stop.todo[1..]))
  }

  /** s is reached from the start by the labels of run. */
  ghost predicate Reaches(input: seq<Record>, s: State, run: seq<Label>, t: State)
    decreases |run|
  {
    if run == [] then s == t
    else Enabled(input, s, run[0]) && Reaches(input, Next(input, s, run[0]), run[1..], t)
  }

  ghost predicate Reachable(input: seq<Record>, s: State) {
    exists run :: Reaches(input, INITIAL, run, s)
  }
}
