/** Retry with backoff around a handler's writes, for any pattern of failures. */
module Retry {
  import opened Options
  import opened Persistence

  const MAX_RETRIES := 3

  /** How one database call ends; a call that raises may nevertheless have been applied. */
  datatype Outcome = Done | Raised | RaisedApplied

  /** The outcome of each write of each attempt. */
  type Oracle = (nat, nat) -> Outcome

  /** The handler from its i-th write on: the store, and whether it returned. */
  function Attempt(s: Store, ws: seq<Write>, attempt: nat, oracle: Oracle, i: nat): (Store, bool)
    decreases |ws| - i
  {
    if i >= |ws| then (s, true)
    else
      match oracle(attempt, i)
      case Done => Attempt(Apply(s, ws[i]), ws, attempt, oracle, i + 1)
      case Raised => (s, false)
      case RaisedApplied => (Apply(s, ws[i]), false)
  }

  function Pow2(n: nat): nat { if n == 0 then 1 else 2 * Pow2(n - 1) }

  function Delay(attempt: nat): real { 0.5 * Pow2(attempt) as real }

  datatype Result = Result(store: Store, handled: bool, dead: bool, slept: real)

  /** _execute_with_retry from the given attempt on. */
  function Retried(s: Store, ws: seq<Write>, oracle: Oracle, n: nat, attempt: nat): Result
    decreases n - attempt
  {
    if attempt >= n then Result(s, false, false, 0.0)
    else
      var (s1, ok) := Attempt(s, ws, attempt, oracle, 0);
      if ok then Result(s1, true, false, 0.0)
      else if attempt < n - 1 then
        var r := Retried(s1, ws, oracle, n, attempt + 1);
        r.(slept := Delay(attempt) + r.slept)
      else Result(s1, false, true, 0.0)
  }

  predicate AllDone(ws: seq<Write>, attempt: nat, oracle: Oracle, i: nat)
    decreases |ws| - i
  {
    i >= |ws| || (oracle(attempt, i).Done? && AllDone(ws, attempt, oracle, i + 1))
  }

  // ----- what one attempt does

  /** Only the last write touches a counter. */
  predicate CounterLast(ws: seq<Write>) { forall i | 0 <= i < |ws| - 1 :: ws[i].Upsert? }

  lemma HandlersWriteCounterLast(e: Event)
    ensures CounterLast(Writes(e))
  {
  }

  /** Did this attempt get as far as applying its last write? */
  predicate AppliedLast(ws: seq<Write>, attempt: nat, oracle: Oracle, i: nat)
    decreases |ws| - i
  {
    if i >= |ws| then true
    else if i == |ws| - 1 then !oracle(attempt, i).Raised?
    else oracle(attempt, i).Done? && AppliedLast(ws, attempt, oracle, i + 1)
  }

  lemma {:induction false} AttemptCount(s: Store, ws: seq<Write>, attempt: nat, oracle: Oracle, i: nat, k: CounterKey)
    requires CounterLast(ws) && i <= |ws|
    ensures Attempt(s, ws, attempt, oracle, i).1 <==> AllDone(ws, attempt, oracle, i)
    ensures Count(Attempt(s, ws, attempt, oracle, i).0, k) ==
            Count(s, k) + if AppliedLast(ws, attempt, oracle, i) then DeltaOf(ws[i..], k) else 0
    decreases |ws| - i
  {
    if i < |ws| {
      assert ws[i..][1..] == ws[i + 1..];
      AttemptCount(Apply(s, ws[i]), ws, attempt, oracle, i + 1, k);
    }
  }

  /** What an attempt leaves, all the writes together would set again. */
  lemma {:induction false} AttemptCells(s: Store, ws: seq<Write>, attempt: nat, oracle: Oracle, i: nat)
    requires i <= |ws|
    ensures Attempt(s, ws, attempt, oracle, i).0.cells + CellsOf(ws[i..]) == s.cells + CellsOf(ws[i..])
    ensures Attempt(s, ws, attempt, oracle, i).1 ==>
              Attempt(s, ws, attempt, oracle, i).0.cells == s.cells + CellsOf(ws[i..])
    decreases |ws| - i
  {
    if i == |ws| {
      assert s.cells + map[] == s.cells;
    } else {
      assert ws[i..][1..] == ws[i + 1..];
      var first: Cells := if ws[i].Upsert? then ws[i].cells else map[];
      var s1 := Apply(s, ws[i]);
      assert s1.cells == s.cells + first;
      Redo(s.cells, first, CellsOf(ws[i + 1..]));
      if oracle(attempt, i).Done? {
        AttemptCells(s1, ws, attempt, oracle, i + 1);
        RedoAfter(Attempt(s1, ws, attempt, oracle, i + 1).0.cells, s.cells, first, CellsOf(ws[i + 1..]));
      }
    }
  }

  lemma Redo(s: Cells, first: Cells, rest: Cells)
    ensures s + first + (first + rest) == s + (first + rest)
    ensures s + first + rest == s + (first + rest)
  {
  }

  lemma RedoAfter(t: Cells, s: Cells, first: Cells, rest: Cells)
    requires t + rest == s + first + rest
    ensures t + (first + rest) == s + (first + rest)
  {
    var l, r := t + (first + rest), s + (first + rest);
    forall c ensures c in l <==> c in r {
      assert c in t + rest <==> c in s + first + rest;
    }
    forall c | c in l ensures l[c] == r[c] {
      assert c !in rest && c in t ==> (t + rest)[c] == t[c];
    }
  }

  /** An attempt makes its writes in order, up to the first that raises, which may have been applied; it
      succeeds if none does. */
  lemma {:induction false} AttemptIs(s: Store, ws: seq<Write>, attempt: nat, oracle: Oracle, i: nat, j: nat)
    requires i <= j <= |ws| && (forall k: nat | i <= k < j :: oracle(attempt, k).Done?)
    requires j < |ws| ==> !oracle(attempt, j).Done?
    ensures Attempt(s, ws, attempt, oracle, i) ==
            (ApplyAll(s, ws[i..if j < |ws| && oracle(attempt, j).RaisedApplied? then j + 1 else j]), j == |ws|)
    decreases j - i
  {
    var end := if j < |ws| && oracle(attempt, j).RaisedApplied? then j + 1 else j;
    assert forall t: Store :: ApplyAll(t, []) == t;
    if i < end {
      assert ws[i..end][0] == ws[i] && ws[i..end][1..] == ws[i + 1..end];
      if i < j { AttemptIs(Apply(s, ws[i]), ws, attempt, oracle, i + 1, j); }
    }
  }

  // ----- what the retries do

  /** Attempts that applied the last write. */
  function Applications(ws: seq<Write>, oracle: Oracle, n: nat, attempt: nat): nat
    decreases n - attempt
  {
    if attempt >= n then 0
    else
      (if AppliedLast(ws, attempt, oracle, 0) then 1 else 0)
      + (if AllDone(ws, attempt, oracle, 0) then 0 else Applications(ws, oracle, n, attempt + 1))
  }

  /** For any failures whatever: a counter moves once for each attempt that applied its last write. */
  lemma {:induction false} RetryCount(s: Store, ws: seq<Write>, oracle: Oracle, n: nat, attempt: nat, k: CounterKey)
    requires CounterLast(ws)
    ensures Count(Retried(s, ws, oracle, n, attempt).store, k) ==
            Count(s, k) + Applications(ws, oracle, n, attempt) * DeltaOf(ws, k)
    decreases n - attempt
  {
    if attempt < n {
      assert ws[0..] == ws;
      AttemptCount(s, ws, attempt, oracle, 0, k);
      var s1 := Attempt(s, ws, attempt, oracle, 0).0;
      RetryCount(s1, ws, oracle, n, attempt + 1, k);
      var d, later := DeltaOf(ws, k), Applications(ws, oracle, n, attempt + 1);
      assert (1 + later) * d == d + later * d;
    }
  }

  lemma {:induction false} RetryCells(s: Store, ws: seq<Write>, oracle: Oracle, n: nat, attempt: nat)
    ensures var r := Retried(s, ws, oracle, n, attempt);
            && r.store.cells + CellsOf(ws) == s.cells + CellsOf(ws)
            && (r.handled ==> r.store.cells == s.cells + CellsOf(ws))
    decreases n - attempt
  {
    if attempt < n {
      assert ws[0..] == ws;
      AttemptCells(s, ws, attempt, oracle, 0);
      RetryCells(Attempt(s, ws, attempt, oracle, 0).0, ws, oracle, n, attempt + 1);
    }
  }

  ghost predicate SomeAttemptSucceeds(ws: seq<Write>, oracle: Oracle, n: nat, attempt: nat) {
    exists a: nat :: attempt <= a < n && AllDone(ws, a, oracle, 0)
  }

  /** A payload is handled if some attempt succeeds, else dead-lettered, and the sleeps before its
      last attempt add up to less than the next delay. */
  lemma {:induction false} RetryEnds(s: Store, ws: seq<Write>, oracle: Oracle, n: nat, attempt: nat)
    requires CounterLast(ws) && attempt < n
    ensures var r := Retried(s, ws, oracle, n, attempt);
            && (r.handled <==> SomeAttemptSucceeds(ws, oracle, n, attempt))
            && (r.dead <==> !r.handled)
            && 0.0 <= r.slept <= Delay(n - 1) - Delay(attempt)
            && (r.dead ==> r.slept == Delay(n - 1) - Delay(attempt))
    decreases n - attempt
  {
    AttemptCount(s, ws, attempt, oracle, 0, CounterKey("", ""));
    if AllDone(ws, attempt, oracle, 0) {
      DelayGrows(attempt, n - 1);
    } else if attempt < n - 1 {
      RetryEnds(Attempt(s, ws, attempt, oracle, 0).0, ws, oracle, n, attempt + 1);
    }
  }

  predicate Returns(ws: seq<Write>, oracle: Oracle, attempt: nat) {
    forall k: nat | k < |ws| :: oracle(attempt, k).Done?
  }

  /** After attempts that raised, the k-th and last to be made, with 0.5, 1, 2, ... s of sleep before each
      but the first: if it is the first in which every call returns, the payload is handled; if none is and
      it is the n-th, dead-lettered. */
  lemma SleepsDouble(s: Store, ws: seq<Write>, oracle: Oracle, n: nat, k: nat)
    requires k < n && (forall a: nat | a < k :: !Returns(ws, oracle, a)) && (Returns(ws, oracle, k) || k == n - 1)
    ensures var r := Retried(s, ws, oracle, n, 0);
            && (r.handled <==> Returns(ws, oracle, k)) && (r.dead <==> !Returns(ws, oracle, k))
            && r.slept == 0.5 * (Pow2(k) - 1) as real
  {
    SleptFrom(s, ws, oracle, n, 0, k);
  }

  lemma {:induction false} SleptFrom(s: Store, ws: seq<Write>, oracle: Oracle, n: nat, from: nat, k: nat)
    requires from <= k < n && (forall a: nat | from <= a < k :: !Returns(ws, oracle, a))
    requires Returns(ws, oracle, k) || k == n - 1
    ensures var r := Retried(s, ws, oracle, n, from);
            && (r.handled <==> Returns(ws, oracle, k)) && (r.dead <==> !Returns(ws, oracle, k))
            && r.slept == 0.5 * (Pow2(k) - Pow2(from)) as real
    decreases k - from
  {
    AttemptReturns(s, ws, from, oracle);
    if from < k {
      SleptFrom(Attempt(s, ws, from, oracle, 0).0, ws, oracle, n, from + 1, k);
    }
  }

  lemma AttemptReturns(s: Store, ws: seq<Write>, attempt: nat, oracle: Oracle)
    ensures Attempt(s, ws, attempt, oracle, 0).1 <==> Returns(ws, oracle, attempt)
  {
    var j := FirstRaise(ws, attempt, oracle, 0);
    AttemptIs(s, ws, attempt, oracle, 0, j);
  }

  lemma {:induction false} FirstRaise(ws: seq<Write>, attempt: nat, oracle: Oracle, i: nat) returns (j: nat)
    requires i <= |ws| && forall k: nat | k < i :: oracle(attempt, k).Done?
    ensures j <= |ws| && (forall k: nat | k < j :: oracle(attempt, k).Done?)
    ensures j < |ws| ==> !oracle(attempt, j).Done?
    decreases |ws| - i
  {
    if i < |ws| && oracle(attempt, i).Done? { j := FirstRaise(ws, attempt, oracle, i + 1); } else { j := i; }
  }

  lemma {:induction false} DelayGrows(a: nat, b: nat)
    requires a <= b
    ensures Delay(a) <= Delay(b)
    decreases b - a
  {
    if a < b { DelayGrows(a, b - 1); }
  }

  /** A raising call is never applied. */
  ghost predicate RaisingIsUnapplied(oracle: Oracle) {
    forall a: nat, i: nat :: !oracle(a, i).RaisedApplied?
  }

  // ----- exactly once, exactly when

  /** Every write of the attempt was applied, and yet it raised: the reply to the last one was lost. */
  predicate ReplyLost(ws: seq<Write>, oracle: Oracle, attempt: nat) {
    ws != [] && (forall i: nat | i < |ws| - 1 :: oracle(attempt, i).Done?) && oracle(attempt, |ws| - 1).RaisedApplied?
  }

  ghost predicate Reached(ws: seq<Write>, oracle: Oracle, n: nat, from: nat, attempt: nat) {
    from <= attempt < n && forall a: nat | from <= a < attempt :: !AllDone(ws, a, oracle, 0)
  }

  lemma {:induction false} LostIsAppliedNotDone(ws: seq<Write>, attempt: nat, oracle: Oracle, i: nat)
    requires i <= |ws|
    ensures AllDone(ws, attempt, oracle, i) ==> AppliedLast(ws, attempt, oracle, i)
    ensures AppliedLast(ws, attempt, oracle, i) && !AllDone(ws, attempt, oracle, i) <==>
            i < |ws| && (forall j: nat | i <= j < |ws| - 1 :: oracle(attempt, j).Done?)
            && oracle(attempt, |ws| - 1).RaisedApplied?
    decreases |ws| - i
  {
    if i < |ws| { LostIsAppliedNotDone(ws, attempt, oracle, i + 1); }
  }

  ghost predicate NoReplyLost(ws: seq<Write>, oracle: Oracle, n: nat, from: nat) {
    forall a: nat | Reached(ws, oracle, n, from, a) :: !ReplyLost(ws, oracle, a)
  }

  /** Leaving out a first attempt that raised. */
  lemma ReachedLater(ws: seq<Write>, oracle: Oracle, n: nat, from: nat)
    requires from < n && !AllDone(ws, from, oracle, 0)
    ensures NoReplyLost(ws, oracle, n, from) <==> !ReplyLost(ws, oracle, from) && NoReplyLost(ws, oracle, n, from + 1)
    ensures SomeAttemptSucceeds(ws, oracle, n, from) <==> SomeAttemptSucceeds(ws, oracle, n, from + 1)
  {
    assert Reached(ws, oracle, n, from, from);
    assert forall a: nat :: a != from ==> (Reached(ws, oracle, n, from, a) <==> Reached(ws, oracle, n, from + 1, a));
  }

  /** The last write is applied as often as the payload is handled if and only if no attempt that was
      made lost the reply to it; otherwise it is applied more often. */
  lemma {:induction false} ApplicationsExact(ws: seq<Write>, oracle: Oracle, n: nat, from: nat)
    ensures var once := if SomeAttemptSucceeds(ws, oracle, n, from) then 1 else 0;
            && Applications(ws, oracle, n, from) >= once
            && (Applications(ws, oracle, n, from) == once <==> NoReplyLost(ws, oracle, n, from))
    decreases n - from
  {
    if from < n {
      LostIsAppliedNotDone(ws, from, oracle, 0);
      if AllDone(ws, from, oracle, 0) {
        assert forall a: nat :: Reached(ws, oracle, n, from, a) ==> a == from;
      } else {
        ApplicationsExact(ws, oracle, n, from + 1);
        ReachedLater(ws, oracle, n, from);
      }
    }
  }

  predicate MovesCounter(e: Event) { e.Message? || (e.Ack? && e.ackType == "read") }

  function CounterOf(e: Event): CounterKey
    requires MovesCounter(e)
  {
    if e.Message? then CounterKey(Or(e.unreadTarget, "agent"), e.conv)
    else CounterKey(if Or(e.from, "") == "" then "agent" else e.from.value, e.conv)
  }

  /** Each counter has moved as one handling moves it if the payload was handled, and not at all if
      it was dead-lettered. */
  ghost predicate CountedOnce(s: Store, ws: seq<Write>, r: Result) {
    forall k :: Count(r.store, k) == Count(s, k) + if r.handled then DeltaOf(ws, k) else 0
  }

  /** Exactly once, exactly when.  Under any pattern of failures, raising calls that were applied
      included, a payload is handled if and only if some attempt succeeds, with all its cells
      written, and is else dead-lettered once, with such partial cells that writing it later completes
      them; the sleeps stay within their bound.  Its counter moves once for a handled and not at all
      for a dead-lettered payload if and only if no attempt that was made lost the reply to its last
      write, or there is no counter to move. */
  lemma ExactlyOnceExactly(s: Store, e: Event, oracle: Oracle, n: nat)
    requires n >= 1
    ensures var r := Retried(s, Writes(e), oracle, n, 0);
            && (r.handled <==> SomeAttemptSucceeds(Writes(e), oracle, n, 0))
            && (r.dead <==> !r.handled)
            && (r.handled ==> r.store.cells == s.cells + CellsOf(Writes(e)))
            && r.store.cells + CellsOf(Writes(e)) == s.cells + CellsOf(Writes(e))
            && r.slept <= 0.5 * (Pow2(n - 1) - 1) as real
            && (CountedOnce(s, Writes(e), r) <==> !MovesCounter(e) || NoReplyLost(Writes(e), oracle, n, 0))
  {
    var ws := Writes(e);
    var r := Retried(s, ws, oracle, n, 0);
    HandlersWriteCounterLast(e);
    RetryEnds(s, ws, oracle, n, 0);
    RetryCells(s, ws, oracle, n, 0);
    ApplicationsExact(ws, oracle, n, 0);
    assert Delay(0) == 0.5;
    var times := Applications(ws, oracle, n, 0);
    forall k ensures Count(r.store, k) == Count(s, k) + times * DeltaOf(ws, k) {
      RetryCount(s, ws, oracle, n, 0, k);
    }
    if MovesCounter(e) { EventMoves(e, CounterOf(e)); }
    forall k | !MovesCounter(e) ensures DeltaOf(ws, k) == 0 {
      EventMoves(e, k);
    }
    TimesOnce(s, ws, r, times);
    if MovesCounter(e) { TimesExact(s, ws, r, times, CounterOf(e)); }
  }

  lemma TimesOnce(s: Store, ws: seq<Write>, r: Result, times: nat)
    requires forall k :: Count(r.store, k) == Count(s, k) + times * DeltaOf(ws, k)
    ensures times == (if r.handled then 1 else 0) || (forall k :: DeltaOf(ws, k) == 0) ==> CountedOnce(s, ws, r)
  {
    if forall k :: DeltaOf(ws, k) == 0 {
      forall k ensures Count(r.store, k) == Count(s, k) {
        assert times * DeltaOf(ws, k) == 0;
      }
    }
  }

  lemma TimesExact(s: Store, ws: seq<Write>, r: Result, times: nat, k: CounterKey)
    requires Count(r.store, k) == Count(s, k) + times * DeltaOf(ws, k)
    requires DeltaOf(ws, k) == 1 || DeltaOf(ws, k) == -1
    ensures CountedOnce(s, ws, r) ==> times == if r.handled then 1 else 0
  {
    if CountedOnce(s, ws, r) {
      assert Count(r.store, k) == Count(s, k) + if r.handled then DeltaOf(ws, k) else 0;
    }
  }

  lemma NothingLost(ws: seq<Write>, oracle: Oracle, n: nat)
    requires RaisingIsUnapplied(oracle)
    ensures NoReplyLost(ws, oracle, n, 0)
  {
  }

  /** So if raising calls are not applied, every payload is either handled, with all its cells
      written and its counter moved once; or dead-lettered once after all attempts failed, with no
      counter moved. */
  lemma RetryExactlyOnce(s: Store, e: Event, oracle: Oracle, n: nat, k: CounterKey)
    requires n >= 1 && RaisingIsUnapplied(oracle)
    ensures var r := Retried(s, Writes(e), oracle, n, 0);
            && (r.handled <==> SomeAttemptSucceeds(Writes(e), oracle, n, 0))
            && (r.dead <==> !r.handled)
            && (r.handled ==> r.store.cells == s.cells + CellsOf(Writes(e))
                              && Count(r.store, k) == Count(s, k) + DeltaOf(Writes(e), k))
            && (r.dead ==> r.store.cells + CellsOf(Writes(e)) == s.cells + CellsOf(Writes(e))
                           && Count(r.store, k) == Count(s, k))
            && r.slept <= 0.5 * (Pow2(n - 1) - 1) as real
  {
    ExactlyOnceExactly(s, e, oracle, n);
    NothingLost(Writes(e), oracle, n);
  }

  /** Without that assumption it fails: a payload of two writes whose counter write raises after it
      was applied, and is then retried, counts twice. */
  lemma AppliedThenRaisedCountsTwice(s: Store, ws: seq<Write>, oracle: Oracle, n: nat, k: CounterKey)
    requires |ws| == 2 && CounterLast(ws) && n >= 2
    requires oracle(0, 0).Done? && oracle(0, 1).RaisedApplied? && oracle(1, 0).Done? && oracle(1, 1).Done?
    ensures var r := Retried(s, ws, oracle, n, 0);
            r.handled && Count(r.store, k) == Count(s, k) + 2 * DeltaOf(ws, k)
  {
    RetryCount(s, ws, oracle, n, 0, k);
    RetryEnds(s, ws, oracle, n, 0);
    assert AllDone(ws, 1, oracle, 2) && AllDone(ws, 1, oracle, 1) && AllDone(ws, 1, oracle, 0);
    assert AppliedLast(ws, 1, oracle, 1) && AppliedLast(ws, 1, oracle, 0);
    assert AppliedLast(ws, 0, oracle, 1) && !AllDone(ws, 0, oracle, 1);
    assert Applications(ws, oracle, n, 1) == 1;
  }

  /** A read receipt is such a payload. */
  lemma ReadReceiptWrites(conv: string, timestamp: int, id: string, from: Option<string>)
    ensures var ws := Writes(Ack(conv, timestamp, id, "read", from));
            && |ws| == 2 && CounterLast(ws)
            && DeltaOf(ws, CounterKey(if Or(from, "") == "" then "agent" else Or(from, ""), conv)) == -1
  {
    var ws := Writes(Ack(conv, timestamp, id, "read", from));
    var k := CounterKey(if Or(from, "") == "" then "agent" else Or(from, ""), conv);
    assert ws[1] == Add(k, -1) && ws[1..] == [ws[1]] && [ws[1]][1..] == [];
    assert DeltaOf([ws[1]], k) == -1;
  }
}
