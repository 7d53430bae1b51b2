/** At-least-once delivery: a restarted consumer goes back to an earlier offset of the log. */
module Redelivery {
  import opened Persistence

  type Log = seq<seq<Write>>

  /** The consumer at a position of the log: reached is the furthest it has been, again what it was
      given more than once. */
  datatype Run = Run(store: Store, pos: nat, reached: nat, again: Log)

  datatype Step = Deliver | Rewind(to: nat)   // a rewind goes to any committed, hence passed, offset

  predicate CanStep(log: Log, r: Run, step: Step) {
    match step
    case Deliver => r.pos < |log|
    case Rewind(to) => to <= r.pos
  }

  function Advance(log: Log, r: Run, step: Step): Run
    requires CanStep(log, r, step)
  {
    match step
    case Deliver =>
      var store := ApplyAll(r.store, log[r.pos]);
      if r.pos < r.reached then Run(store, r.pos + 1, r.reached, r.again + [log[r.pos]])
      else Run(store, r.pos + 1, r.pos + 1, r.again)
    case Rewind(to) => r.(pos := to)
  }

  ghost predicate Consumes(log: Log, r: Run, steps: seq<Step>, r': Run)
    decreases |steps|
  {
    if steps == [] then r == r'
    else CanStep(log, r, steps[0]) && Consumes(log, Advance(log, r, steps[0]), steps[1..], r')
  }

  /** Delivering what lies between the position and the furthest point would give exactly the cells
      of one pass. */
  ghost predicate CellsOnTrack(log: Log, init: Store, r: Run) {
    && r.pos <= r.reached <= |log|
    && r.store.cells + LogCells(log[r.pos..r.reached]) == init.cells + LogCells(log[..r.reached])
  }

  /** A counter is off by what was delivered again. */
  ghost predicate CountOnTrack(log: Log, init: Store, r: Run, k: CounterKey) {
    && r.pos <= r.reached <= |log|
    && Count(r.store, k) == Count(init, k) + Net(log[..r.reached], k) + Net(r.again, k)
  }

  lemma DeliverAgainCells(log: Log, init: Store, r: Run)
    requires CellsOnTrack(log, init, r) && r.pos < r.reached
    ensures CellsOnTrack(log, init, Advance(log, r, Deliver))
  {
    var ws, rest := log[r.pos], log[r.pos + 1..r.reached];
    ApplyAllCells(r.store, ws);
    assert log[r.pos..r.reached][0] == ws && log[r.pos..r.reached][1..] == rest;
    UnionAssociates(r.store.cells, CellsOf(ws), LogCells(rest));
  }

  lemma DeliverNewCells(log: Log, init: Store, r: Run)
    requires CellsOnTrack(log, init, r) && r.pos == r.reached < |log|
    ensures CellsOnTrack(log, init, Advance(log, r, Deliver))
  {
    var ws, done := log[r.pos], log[..r.pos];
    ApplyAllCells(r.store, ws);
    assert log[r.pos..r.pos] == [] && log[r.pos + 1..r.pos + 1] == [];
    NoneLeft(r.store.cells, init.cells + LogCells(done));
    CellsConcat(done, [ws]);
    assert done + [ws] == log[..r.pos + 1];
    LogCellsOne(ws);
    UnionAssociates(init.cells, LogCells(done), CellsOf(ws));
    NoneLeft(r.store.cells + CellsOf(ws), r.store.cells + CellsOf(ws));
  }

  lemma NoneLeft(a: Cells, b: Cells)
    ensures a + LogCells([]) == b <==> a == b
  {
    assert a + map[] == a;
  }

  lemma LogCellsOne(ws: seq<Write>)
    ensures LogCells([ws]) == CellsOf(ws)
  {
    assert [ws][1..] == [];
    NoneLeft(CellsOf(ws), CellsOf(ws));
  }

  lemma SplitCells(log: Log, a: nat, b: nat, c: nat)
    requires a <= b <= c <= |log|
    ensures LogCells(log[a..c]) == LogCells(log[a..b]) + LogCells(log[b..c])
  {
    CellsConcat(log[a..b], log[b..c]);
    assert log[a..c] == log[a..b] + log[b..c];
  }

  /** Going back further only repeats cells that the rest of the log sets again, or that are as the
      log left them. */
  lemma RewindCells(log: Log, init: Store, r: Run, to: nat)
    requires CellsOnTrack(log, init, r) && to <= r.pos
    ensures CellsOnTrack(log, init, Advance(log, r, Rewind(to)))
  {
    SplitCells(log, to, r.pos, r.reached);
    SplitCells(log, 0, to, r.reached);
    assert log[..to] == log[0..to] && log[..r.reached] == log[0..r.reached];
    Absorb(r.store.cells, init.cells, LogCells(log[..to]), LogCells(log[to..r.pos]), LogCells(log[r.pos..r.reached]));
  }

  lemma Absorb(now: Cells, init: Cells, a: Cells, b: Cells, c: Cells)
    requires now + c == init + (a + (b + c))
    ensures now + (b + c) == init + (a + (b + c))
  {
    var l, r := now + (b + c), init + (a + (b + c));
    assert l.Keys == r.Keys;
    forall k | k in l ensures l[k] == r[k] {
      assert k !in c ==> k in now + c ==> (now + c)[k] == r[k];
    }
  }

  lemma CountStep(log: Log, init: Store, r: Run, step: Step, k: CounterKey)
    requires CountOnTrack(log, init, r, k) && CanStep(log, r, step)
    ensures CountOnTrack(log, init, Advance(log, r, step), k)
  {
    if step.Deliver? {
      var ws := log[r.pos];
      ApplyAllCount(r.store, ws, k);
      NetOne(ws, k);
      if r.pos < r.reached {
        NetConcat(r.again, [ws], k);
      } else {
        NetConcat(log[..r.pos], [ws], k);
        assert log[..r.pos] + [ws] == log[..r.pos + 1];
      }
    }
  }

  lemma NetOne(ws: seq<Write>, k: CounterKey)
    ensures Net([ws], k) == DeltaOf(ws, k)
  {
    assert [ws][1..] == [];
  }

  lemma CellsStep(log: Log, init: Store, r: Run, step: Step)
    requires CellsOnTrack(log, init, r) && CanStep(log, r, step)
    ensures CellsOnTrack(log, init, Advance(log, r, step))
  {
    match step
    case Rewind(to) => RewindCells(log, init, r, to);
    case Deliver => if r.pos < r.reached { DeliverAgainCells(log, init, r); } else { DeliverNewCells(log, init, r); }
  }

  lemma {:induction false} TrackRun(log: Log, init: Store, r: Run, steps: seq<Step>, r': Run, k: CounterKey)
    requires CellsOnTrack(log, init, r) && CountOnTrack(log, init, r, k) && Consumes(log, r, steps, r')
    ensures CellsOnTrack(log, init, r') && CountOnTrack(log, init, r', k)
    decreases |steps|
  {
    if steps != [] {
      CellsStep(log, init, r, steps[0]);
      CountStep(log, init, r, steps[0], k);
      TrackRun(log, init, Advance(log, r, steps[0]), steps[1..], r', k);
    }
  }

  /** Redelivery is harmless except for counters.  However often and however far the consumer of a
      log of payloads is sent back: once it is again where it had been furthest, every cell is as
      after one pass, and each counter has moved besides by the net of what was delivered again. */
  lemma RedeliveryHarmless(events: seq<Event>, init: Store, steps: seq<Step>, r: Run, k: CounterKey)
    requires Consumes(LogOf(events), Run(init, 0, 0, []), steps, r) && r.pos == r.reached
    ensures r.reached <= |events|
    ensures r.store.cells == PersistLog(init, LogOf(events[..r.reached])).cells
    ensures Count(r.store, k) == Count(PersistLog(init, LogOf(events[..r.reached])), k) + Net(r.again, k)
  {
    var log := LogOf(events);
    assert log[..0] == [] && log[0..0] == [];
    TrackRun(log, init, Run(init, 0, 0, []), steps, r, k);
    assert log[..r.reached] == LogOf(events[..r.reached]) && log[r.pos..r.reached] == [];
    NoneLeft(r.store.cells, init.cells + LogCells(log[..r.reached]));
    PersistLogCells(init, log[..r.reached]);
    PersistLogCount(init, log[..r.reached], k);
  }

  /** The plain case: the whole log, then any suffix of it once more. */
  lemma SuffixReplay(events: seq<Event>, init: Store, from: nat, k: CounterKey)
    requires from <= |events|
    ensures var once := PersistLog(init, LogOf(events));
            var twice := PersistLog(once, LogOf(events[from..]));
            twice.cells == once.cells && Count(twice, k) == Count(once, k) + Net(LogOf(events[from..]), k)
  {
    var log, tail := LogOf(events), LogOf(events[from..]);
    var once := PersistLog(init, log);
    PersistLogCells(init, log);
    PersistLogCells(once, tail);
    PersistLogCount(once, tail, k);
    assert log == log[..from] + tail;
    CellsConcat(log[..from], tail);
    Twice(init.cells, LogCells(log[..from]), LogCells(tail));
  }

  lemma Twice(init: Cells, a: Cells, b: Cells)
    ensures init + (a + b) + b == init + (a + b)
  {
  }
}
