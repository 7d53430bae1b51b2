/** Redelivery and failures together: a consumer that is sent back any number of times, and whose every
    delivery goes through the retries. */
module FailingRedelivery {
  import opened Persistence
  import opened Retry
  import opened PersistenceWorker
  import R = Redelivery

  datatype Delivery = Delivery(rec: Record, oracle: Oracle)

  /** The consumer at a position of the log, with all it has been given so far. */
  datatype Run = Run(store: Store, pos: nat, reached: nat, given: seq<Delivery>)

  datatype Step = Deliver(oracle: Oracle) | Rewind(to: nat)

  predicate CanStep(log: seq<Record>, r: Run, step: Step) {
    match step
    case Deliver(_) => r.pos < |log|
    case Rewind(to) => to <= r.pos
  }

  function Advance(log: seq<Record>, r: Run, step: Step): Run
    requires CanStep(log, r, step)
  {
    match step
    case Deliver(oracle) =>
      Run(Handle(r.store, log[r.pos], oracle).store, r.pos + 1,
          if r.pos < r.reached then r.reached else r.pos + 1, r.given + [Delivery(log[r.pos], oracle)])
    case Rewind(to) => r.(pos := to)
  }

  ghost predicate Consumes(log: seq<Record>, r: Run, steps: seq<Step>, r': Run)
    decreases |steps|
  {
    if steps == [] then r == r'
    else CanStep(log, r, steps[0]) && Consumes(log, Advance(log, r, steps[0]), steps[1..], r')
  }

  // ----- the counters: a run is a pass over what was delivered

  function Records(given: seq<Delivery>): seq<Record> {
    seq(|given|, i requires 0 <= i < |given| => given[i].rec)
  }

  function Faults(given: seq<Delivery>): nat -> Oracle {
    (i: nat) => if i < |given| then given[i].oracle else ALWAYS_RAISES
  }

  lemma {:induction false} SameFaults(s: Store, log: seq<Record>, faults: nat -> Oracle, faults': nat -> Oracle)
    requires forall i: nat | i < |log| :: faults(i) == faults'(i)
    ensures Consumed(s, log, faults) == Consumed(s, log, faults')
    decreases |log|
  {
    if log != [] { SameFaults(s, log[..|log| - 1], faults, faults'); }
  }

  lemma GivenMore(s: Store, given: seq<Delivery>, d: Delivery)
    ensures Consumed(s, Records(given + [d]), Faults(given + [d])) ==
            Handle(Consumed(s, Records(given), Faults(given)), d.rec, d.oracle).store
  {
    var more := given + [d];
    assert Records(more)[..|given|] == Records(given);
    SameFaults(s, Records(given), Faults(more), Faults(given));
  }

  lemma {:induction false} RunIsOnePass(log: seq<Record>, init: Store, r: Run, steps: seq<Step>, r': Run)
    requires r.store == Consumed(init, Records(r.given), Faults(r.given)) && Consumes(log, r, steps, r')
    ensures r'.store == Consumed(init, Records(r'.given), Faults(r'.given))
    decreases |steps|
  {
    if steps != [] {
      if steps[0].Deliver? { GivenMore(init, r.given, Delivery(log[r.pos], steps[0].oracle)); }
      RunIsOnePass(log, init, Advance(log, r, steps[0]), steps[1..], r');
    }
  }

  /** However the consumer is sent back and whatever fails, its store is that of one pass over what it was
      given.  So after each of its deliveries the unread counters are the handled deliveries of messages
      less those of reads, if and only if no delivery loses the reply to its counter's write. */
  lemma DeliveriesCounted(log: seq<Record>, init: Store, steps: seq<Step>, r: Run)
    requires Consumes(log, Run(init, 0, 0, []), steps, r)
    ensures r.store == Consumed(init, Records(r.given), Faults(r.given))
    ensures AlwaysRight(init, Records(r.given), Faults(r.given)) <==> AllKept(Records(r.given), Faults(r.given))
  {
    assert Records([]) == [];
    RunIsOnePass(log, init, Run(init, 0, 0, []), steps, r);
    LogExactlyOnce(init, Records(r.given), Faults(r.given));
  }

  // ----- the cells: only what a dead-lettered delivery writes can differ from one pass

  /** What the handler of a record would write. */
  function WritesOf(rec: Record): seq<Write> {
    match rec
    case Known(event) => Writes(event)
    case NullText(e) => [NullRow(e)]
    case _ => []
  }

  function AllWrites(log: seq<Record>): R.Log {
    seq(|log|, i requires 0 <= i < |log| => WritesOf(log[i]))
  }

  /** Every delivery that was not handled writes at most these cells. */
  ghost predicate FailuresWithin(given: seq<Delivery>, d: set<Cell>) {
    forall i | 0 <= i < |given| && !IsHandled(given[i].rec, given[i].oracle) ::
      CellsOf(WritesOf(given[i].rec)).Keys <= d
  }

  /** The same log without those cells, and without counters. */
  function Trimmed(log: seq<Record>, d: set<Cell>): R.Log {
    seq(|log|, i requires 0 <= i < |log| => [Upsert(CellsOf(WritesOf(log[i])) - d)])
  }

  lemma MinusUnion(a: Cells, b: Cells, d: set<Cell>)
    ensures (a + b) - d == (a - d) + (b - d)
  {
  }

  lemma MinusAll(a: Cells, b: Cells, c: Cells, d: set<Cell>)
    requires a + c == b + c && c.Keys <= d
    ensures a - d == (b - d) + (c - d)
  {
    MinusUnion(a, c, d);
    MinusUnion(b, c, d);
    assert c - d == map[];
  }

  lemma RetriedCells(s: Store, ws: seq<Write>, oracle: Oracle, d: set<Cell>)
    requires CounterLast(ws)
    requires !SomeAttemptSucceeds(ws, oracle, MAX_RETRIES, 0) ==> CellsOf(ws).Keys <= d
    ensures Retried(s, ws, oracle, MAX_RETRIES, 0).store.cells - d == (s.cells - d) + (CellsOf(ws) - d)
  {
    var r := Retried(s, ws, oracle, MAX_RETRIES, 0);
    RetryEnds(s, ws, oracle, MAX_RETRIES, 0);
    RetryCells(s, ws, oracle, MAX_RETRIES, 0);
    if r.handled { MinusUnion(s.cells, CellsOf(ws), d); } else { MinusAll(r.store.cells, s.cells, CellsOf(ws), d); }
  }

  lemma CellsOfOne(m: Cells)
    ensures CellsOf([Upsert(m)]) == m
    ensures CellsOf([]) == map[]
  {
    assert [Upsert(m)][1..] == [] && m + map[] == m;
  }

  lemma MinusInside(a: Cells, b: Cells, d: set<Cell>)
    requires b.Keys <= d
    ensures (a + b) - d == a - d && b - d == map[]
  {
  }

  lemma UncountedCells(s: Store, rec: Record, oracle: Oracle, d: set<Cell>)
    requires !rec.Known? && CellsOf(WritesOf(rec)).Keys <= d
    ensures Handle(s, rec, oracle).store.cells - d == s.cells - d
    ensures CellsOf(WritesOf(rec)) - d == map[]
  {
    match rec
    case Dropped => CellsOfOne(map[]);
    case Malformed =>
      MalformedIsDead(s);
      CellsOfOne(map[]);
    case NullText(e) =>
      NullTextIsDead(s, e, oracle);
      CellsOfOne(NullRow(e).cells);
      MinusInside(s.cells, NullRow(e).cells, d);
  }

  /** A delivery, seen apart from those cells, writes what its record says, handled or not. */
  lemma DeliveryCells(s: Store, rec: Record, oracle: Oracle, d: set<Cell>)
    requires !IsHandled(rec, oracle) ==> CellsOf(WritesOf(rec)).Keys <= d
    ensures Handle(s, rec, oracle).store.cells - d == (s.cells - d) + (CellsOf(WritesOf(rec)) - d)
  {
    if rec.Known? {
      HandlersWriteCounterLast(rec.event);
      RetriedCells(s, Writes(rec.event), oracle, d);
    } else {
      UncountedCells(s, rec, oracle, d);
      assert (s.cells - d) + map[] == s.cells - d;
    }
  }

  /** r apart from those cells is a run without failures over the trimmed log. */
  ghost predicate Shadows(r: Run, shadow: R.Run, d: set<Cell>) {
    shadow.pos == r.pos && shadow.reached == r.reached && shadow.store.cells == r.store.cells - d
  }

  function StepOf(step: Step): R.Step { if step.Deliver? then R.Deliver else R.Rewind(step.to) }

  lemma ShadowStep(log: seq<Record>, r: Run, shadow: R.Run, d: set<Cell>, step: Step)
    requires Shadows(r, shadow, d) && CanStep(log, r, step)
    requires step.Deliver? && !IsHandled(log[r.pos], step.oracle) ==> CellsOf(WritesOf(log[r.pos])).Keys <= d
    ensures R.CanStep(Trimmed(log, d), shadow, StepOf(step))
    ensures Shadows(Advance(log, r, step), R.Advance(Trimmed(log, d), shadow, StepOf(step)), d)
  {
    if step.Deliver? {
      DeliveryCells(r.store, log[r.pos], step.oracle, d);
      var ws := Trimmed(log, d)[r.pos];
      ApplyAllCells(shadow.store, ws);
      assert ws[1..] == [] && ws[0].cells + map[] == ws[0].cells;
    }
  }

  lemma {:induction false} ShadowRun(log: seq<Record>, r: Run, shadow: R.Run, d: set<Cell>, steps: seq<Step>, r': Run)
    returns (rsteps: seq<R.Step>, shadow': R.Run)
    requires Shadows(r, shadow, d) && Consumes(log, r, steps, r') && FailuresWithin(r'.given, d)
    ensures R.Consumes(Trimmed(log, d), shadow, rsteps, shadow') && Shadows(r', shadow', d)
    decreases |steps|
  {
    if steps == [] {
      rsteps, shadow' := [], shadow;
    } else {
      var r1 := Advance(log, r, steps[0]);
      if steps[0].Deliver? {
        GivenStays(log, r1, steps[1..], r');
        assert r'.given[|r.given|] == Delivery(log[r.pos], steps[0].oracle);
      }
      ShadowStep(log, r, shadow, d, steps[0]);
      var rest;
      rest, shadow' := ShadowRun(log, r1, R.Advance(Trimmed(log, d), shadow, StepOf(steps[0])), d, steps[1..], r');
      rsteps := [StepOf(steps[0])] + rest;
      assert rsteps[1..] == rest;
    }
  }

  lemma {:induction false} GivenStays(log: seq<Record>, r: Run, steps: seq<Step>, r': Run)
    requires Consumes(log, r, steps, r')
    ensures r.given <= r'.given
    decreases |steps|
  {
    if steps != [] { GivenStays(log, Advance(log, r, steps[0]), steps[1..], r'); }
  }

  lemma {:induction false} TrimmedCells(log: seq<Record>, d: set<Cell>)
    ensures LogCells(Trimmed(log, d)) == LogCells(AllWrites(log)) - d
    decreases |log|
  {
    if log != [] {
      assert Trimmed(log, d)[1..] == Trimmed(log[1..], d) && AllWrites(log)[1..] == AllWrites(log[1..]);
      TrimmedCells(log[1..], d);
      TrimmedFirst(CellsOf(WritesOf(log[0])), LogCells(AllWrites(log[1..])), d);
    }
  }

  lemma TrimmedFirst(first: Cells, rest: Cells, d: set<Cell>)
    ensures CellsOf([Upsert(first - d)]) + (rest - d) == (first + rest) - d
  {
    CellsOfOne(first - d);
    MinusUnion(first, rest, d);
  }

  /** However the consumer is sent back and whatever fails: once it is again where it had been furthest,
      every cell that no unhandled delivery writes is as after one pass without failures. */
  lemma FailuresStayLocal(log: seq<Record>, init: Store, steps: seq<Step>, r: Run, d: set<Cell>)
    requires Consumes(log, Run(init, 0, 0, []), steps, r) && r.pos == r.reached && FailuresWithin(r.given, d)
    ensures r.reached <= |log|
    ensures r.store.cells - d == PersistLog(init, AllWrites(log[..r.reached])).cells - d
  {
    var base := Store(init.cells - d, map[]);
    var trimmed := Trimmed(log, d);
    var rsteps, shadow := ShadowRun(log, Run(init, 0, 0, []), R.Run(base, 0, 0, []), d, steps, r);
    assert trimmed[..0] == [] && trimmed[0..0] == [];
    R.TrackRun(trimmed, base, R.Run(base, 0, 0, []), rsteps, shadow, CounterKey("", ""));
    assert trimmed[shadow.pos..shadow.reached] == [];
    R.NoneLeft(shadow.store.cells, base.cells + LogCells(trimmed[..r.reached]));
    assert trimmed[..r.reached] == Trimmed(log[..r.reached], d);
    TrimmedCells(log[..r.reached], d);
    PersistLogCells(init, AllWrites(log[..r.reached]));
    MinusUnion(init.cells, LogCells(AllWrites(log[..r.reached])), d);
  }
}
