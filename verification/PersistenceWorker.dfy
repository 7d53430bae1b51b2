/** The persistence worker: its handlers' writes one by one, and the retry loop around them. */
module PersistenceWorker {
  import opened Options
  import opened Persistence
  import opened Retry

  type MessageEvent = e: Event | e.Message? witness Message("", 0, "", None, None, None, None, None, None)

  /** A record of the chat-persist topic: no value or an unknown _persist_type; a payload; a payload of
      a known type that lacks a key its handler reads without a default; or a message whose text is
      null (or else cannot be sliced), which raises between its first write and its second. */
  datatype Record = Dropped | Known(event: Event) | Malformed | NullText(message: MessageEvent)

  /** A handler reads such keys for its first write, so a malformed payload raises before it. */
  const NEVER_WRITTEN: seq<Write> := [Upsert(map[])]
  const ALWAYS_RAISES: Oracle := (attempt, i) => Raised

  /** The row of a message without text, and then a write that is never made. */
  function NullWrites(e: MessageEvent): seq<Write> { [NullRow(e)] + NEVER_WRITTEN }

  function NullRow(e: MessageEvent): Write {
    Row("messages", [Text(e.conv), Num(Day(e.timestamp)), Num(e.timestamp), Text(e.id)],
        MessageColumns(e)["content" := Null])
  }

  function NullFaults(oracle: Oracle): Oracle {
    (attempt: nat, i: nat) => if i == 0 then oracle(attempt, 0) else Raised
  }

  /** What one record does. */
  function Handle(s: Store, rec: Record, oracle: Oracle): Result {
    match rec
    case Dropped => Result(s, false, false, 0.0)
    case Known(event) => Retried(s, Writes(event), oracle, MAX_RETRIES, 0)
    case Malformed => Retried(s, NEVER_WRITTEN, ALWAYS_RAISES, MAX_RETRIES, 0)
    case NullText(e) => Retried(s, NullWrites(e), NullFaults(oracle), MAX_RETRIES, 0)
  }

  class Worker {
    var store: Store
    var deadLetters: seq<Record>   // attempts to publish to the dead-letter topic
    var published: seq<Record>     // those that succeeded
    var slept: real

    constructor (store: Store)
      ensures this.store == store && deadLetters == [] && published == [] && slept == 0.0
    {
      this.store, deadLetters, published, slept := store, [], [], 0.0;
    }

    /** A handler: its writes in order, until one raises. */
    method RunHandler(ws: seq<Write>, attempt: nat, oracle: Oracle) returns (ok: bool)
      modifies this`store
      ensures (store, ok) == Attempt(old(store), ws, attempt, oracle, 0)
    {
      var i := 0;
      while i < |ws|
        invariant 0 <= i <= |ws|
        invariant Attempt(old(store), ws, attempt, oracle, 0) == Attempt(store, ws, attempt, oracle, i)
      {
        match oracle(attempt, i) {
          case Done => store := Apply(store, ws[i]);
          case Raised => return false;
          case RaisedApplied =>
            store := Apply(store, ws[i]);
            return false;
        }
        i := i + 1;
      }
      return true;
    }

    /** dlqUp: there is a producer, and it does not raise. */
    method SendToDlq(rec: Record, dlqUp: bool)
      modifies this`deadLetters, this`published
      ensures deadLetters == old(deadLetters) + [rec]
      ensures published == old(published) + (if dlqUp then [rec] else [])
    {
      deadLetters := deadLetters + [rec];
      if dlqUp {
        published := published + [rec];
      }
    }

    /** ws is what the handler writes for the record. */
    method ExecuteWithRetry(ws: seq<Write>, rec: Record, oracle: Oracle, maxRetries: nat, dlqUp: bool)
      modifies this
      ensures var r := Retried(old(store), ws, oracle, maxRetries, 0);
              && store == r.store && slept == old(slept) + r.slept
              && deadLetters == old(deadLetters) + (if r.dead then [rec] else [])
              && published == old(published) + (if r.dead && dlqUp then [rec] else [])
    {
      ghost var r := Retried(store, ws, oracle, maxRetries, 0);
      var attempt := 0;
      while attempt < maxRetries
        invariant 0 <= attempt <= maxRetries
        invariant attempt < maxRetries || maxRetries == 0
        invariant deadLetters == old(deadLetters) && published == old(published)
        invariant Retried(store, ws, oracle, maxRetries, attempt) == r.(slept := old(slept) + r.slept - slept)
      {
        var ok := RunHandler(ws, attempt, oracle);
        if ok {
          return;
        }
        if attempt < maxRetries - 1 {
          slept := slept + Delay(attempt);
        } else {
          SendToDlq(rec, dlqUp);
          return;
        }
        attempt := attempt + 1;
      }
    }

    /** The consume loop's body. */
    method HandleRecord(rec: Record, oracle: Oracle, dlqUp: bool)
      modifies this
      ensures var r := Handle(old(store), rec, oracle);
              && store == r.store && slept == old(slept) + r.slept
              && deadLetters == old(deadLetters) + (if r.dead then [rec] else [])
              && published == old(published) + (if r.dead && dlqUp then [rec] else [])
      ensures rec.Dropped? ==>
                && store == old(store) && slept == old(slept)
                && deadLetters == old(deadLetters) && published == old(published)
      ensures rec.Known? ==>
                var ws := Writes(rec.event);
                && deadLetters ==
                   old(deadLetters) + (if exists a: nat :: a < 3 && Returns(ws, oracle, a) then [] else [rec])
                && slept == old(slept) + if Returns(ws, oracle, 0) then 0.0
                                         else if Returns(ws, oracle, 1) then 0.5 else 1.5
      ensures rec.Malformed? ==>
                store == old(store) && slept == old(slept) + 0.5 + 1.0 && deadLetters == old(deadLetters) + [rec]
      ensures rec.NullText? ==>
                && store == (if SomeRowWritten(oracle) then Apply(old(store), NullRow(rec.message)) else old(store))
                && slept == old(slept) + 0.5 + 1.0 && deadLetters == old(deadLetters) + [rec]
    {
      match rec {
        case Dropped =>
        case Known(event) =>
          ThreeAttempts(store, Writes(event), oracle);
          ExecuteWithRetry(Writes(event), rec, oracle, MAX_RETRIES, dlqUp);
        case Malformed =>
          MalformedIsDead(store);
          ExecuteWithRetry(NEVER_WRITTEN, rec, ALWAYS_RAISES, MAX_RETRIES, dlqUp);
        case NullText(e) =>
          NullTextIsDead(store, e, oracle);
          ExecuteWithRetry(NullWrites(e), rec, NullFaults(oracle), MAX_RETRIES, dlqUp);
      }
    }

    /** _consume_loop over some stretch of the log. */
    method ConsumeLoop(log: seq<Record>, faults: nat -> Oracle, dlqUp: nat -> bool)
      modifies this
      ensures store == Consumed(old(store), log, faults)
    {
      for i := 0 to |log|
        invariant store == Consumed(old(store), log[..i], faults)
      {
        assert log[..i + 1][..i] == log[..i];
        HandleRecord(log[i], faults(i), dlqUp(i));
      }
      assert log[..|log|] == log;
    }
  }

  /** A payload has three attempts, 0.5 s and 1 s apart. */
  lemma ThreeAttempts(s: Store, ws: seq<Write>, oracle: Oracle)
    ensures var r := Retried(s, ws, oracle, MAX_RETRIES, 0);
            && (r.dead <==> !exists a: nat :: a < 3 && Returns(ws, oracle, a))
            && r.slept == if Returns(ws, oracle, 0) then 0.0 else if Returns(ws, oracle, 1) then 0.5 else 1.5
  {
    var k: nat := if Returns(ws, oracle, 0) then 0 else if Returns(ws, oracle, 1) then 1 else 2;
    SleepsDouble(s, ws, oracle, 3, k);
    assert Pow2(0) == 1 && Pow2(1) == 2 && Pow2(2) == 4;
  }

  /** A malformed payload is retried like any other and then dead-lettered. */
  lemma MalformedIsDead(s: Store)
    ensures Retried(s, NEVER_WRITTEN, ALWAYS_RAISES, MAX_RETRIES, 0) == Result(s, false, true, 0.5 + 1.0)
  {
    assert forall attempt: nat :: Attempt(s, NEVER_WRITTEN, attempt, ALWAYS_RAISES, 0) == (s, false);
    assert Retried(s, NEVER_WRITTEN, ALWAYS_RAISES, MAX_RETRIES, 2) == Result(s, false, true, 0.0);
    assert Pow2(1) == 2 && Delay(1) == 1.0 && Delay(0) == 0.5;
    assert Retried(s, NEVER_WRITTEN, ALWAYS_RAISES, MAX_RETRIES, 1) == Result(s, false, true, 1.0);
  }

  /** Some attempt applied the first write. */
  predicate SomeRowWritten(oracle: Oracle) { exists a | 0 <= a < MAX_RETRIES :: !oracle(a, 0).Raised? }

  lemma NullAttempt(s: Store, e: MessageEvent, oracle: Oracle, attempt: nat)
    ensures Attempt(s, NullWrites(e), attempt, NullFaults(oracle), 0) ==
            (if oracle(attempt, 0).Raised? then s else Apply(s, NullRow(e)), false)
  {
    var s1 := Apply(s, NullRow(e));
    assert Attempt(s1, NullWrites(e), attempt, NullFaults(oracle), 1) == (s1, false);
  }

  lemma RowTwice(s: Store, e: MessageEvent)
    ensures Apply(Apply(s, NullRow(e)), NullRow(e)) == Apply(s, NullRow(e))
  {
  }

  /** The row of a message without text is the message's, but with a null content. */
  lemma NullRowIs(e: MessageEvent, column: string)
    ensures var c := Cell("messages", [Text(e.conv), Num(Day(e.timestamp)), Num(e.timestamp), Text(e.id)], column);
            && (c in NullRow(e).cells <==> column in MessageColumns(e))
            && (c in NullRow(e).cells ==>
                  NullRow(e).cells[c] == if column == "content" then Null else MessageColumns(e)[column])
            && forall c' | c' in NullRow(e).cells :: c'.table == c.table && c'.row == c.row
  {
    RowHolds("messages", [Text(e.conv), Num(Day(e.timestamp)), Num(e.timestamp), Text(e.id)],
             MessageColumns(e)["content" := Null],
             Cell("messages", [Text(e.conv), Num(Day(e.timestamp)), Num(e.timestamp), Text(e.id)], column));
  }

  /** The store after an attempt at it. */
  function NullTried(s: Store, e: MessageEvent, oracle: Oracle, attempt: nat): Store {
    if oracle(attempt, 0).Raised? then s else Apply(s, NullRow(e))
  }

  lemma SomeOfThree(oracle: Oracle)
    ensures SomeRowWritten(oracle) <==> !oracle(0, 0).Raised? || !oracle(1, 0).Raised? || !oracle(2, 0).Raised?
  {
    assert MAX_RETRIES == 3;
    if SomeRowWritten(oracle) {
      var a :| 0 <= a < MAX_RETRIES && !oracle(a, 0).Raised?;
      assert a == 0 || a == 1 || a == 2;
    }
  }

  /** The store after the attempts that are left. */
  function NullLeft(s: Store, e: MessageEvent, oracle: Oracle, attempt: nat): Store
    decreases 3 - attempt
  {
    if attempt >= 3 then s else NullLeft(NullTried(s, e, oracle, attempt), e, oracle, attempt + 1)
  }

  lemma {:induction false} NullFrom(s: Store, e: MessageEvent, oracle: Oracle, n: nat, attempt: nat)
    requires n == 3 && attempt < n
    ensures Retried(s, NullWrites(e), NullFaults(oracle), n, attempt) ==
            Result(NullLeft(s, e, oracle, attempt), false, true,
                   if attempt == 0 then 1.5 else if attempt == 1 then 1.0 else 0.0)
    decreases 3 - attempt
  {
    var s1 := NullTried(s, e, oracle, attempt);
    NullAttempt(s, e, oracle, attempt);
    if attempt == 2 {
      assert NullLeft(s1, e, oracle, attempt + 1) == s1;
    } else {
      NullFrom(s1, e, oracle, n, attempt + 1);
      assert Delay(0) == 0.5 && Delay(1) == 1.0 by { assert Pow2(1) == 2; }
    }
  }

  lemma ThreeTries(s: Store, e: MessageEvent, oracle: Oracle)
    ensures NullLeft(s, e, oracle, 0) == if SomeRowWritten(oracle) then Apply(s, NullRow(e)) else s
  {
    SomeOfThree(oracle);
    RowTwice(s, e);
  }

  /** A message without text is stored and yet dead-lettered, and never counted. */
  lemma NullTextIsDead(s: Store, e: MessageEvent, oracle: Oracle)
    ensures Retried(s, NullWrites(e), NullFaults(oracle), MAX_RETRIES, 0) ==
            Result(if SomeRowWritten(oracle) then Apply(s, NullRow(e)) else s, false, true, 0.5 + 1.0)
  {
    NullFrom(s, e, oracle, MAX_RETRIES, 0);
    ThreeTries(s, e, oracle);
  }

  // ----- the counters over a whole log

  /** The store after a log; faults gives the outcomes of each record's attempts. */
  function Consumed(s: Store, log: seq<Record>, faults: nat -> Oracle): Store
    decreases |log|
  {
    if log == [] then s
    else
      var n := |log| - 1;
      Handle(Consumed(s, log[..n], faults), log[n], faults(n)).store
  }

  ghost predicate IsHandled(rec: Record, oracle: Oracle) {
    rec.Known? && SomeAttemptSucceeds(Writes(rec.event), oracle, MAX_RETRIES, 0)
  }

  /** The payloads that some attempt handled. */
  ghost function Handled(log: seq<Record>, faults: nat -> Oracle): seq<Event>
    decreases |log|
  {
    if log == [] then []
    else
      var n := |log| - 1;
      Handled(log[..n], faults) + if IsHandled(log[n], faults(n)) then [log[n].event] else []
  }

  /** Each unread counter is the handled messages sent to its user less that user's handled reads. */
  ghost predicate CountersRight(s: Store, log: seq<Record>, faults: nat -> Oracle) {
    forall k :: Count(Consumed(s, log, faults), k) ==
                Count(s, k) + Sent(Handled(log, faults), k) - Reads(Handled(log, faults), k)
  }

  /** No attempt at this record lost the reply to its counter's write. */
  ghost predicate RepliesKept(rec: Record, oracle: Oracle) {
    rec.Known? ==> !MovesCounter(rec.event) || NoReplyLost(Writes(rec.event), oracle, MAX_RETRIES, 0)
  }

  lemma UncountedRecord(s: Store, rec: Record, oracle: Oracle, k: CounterKey)
    requires !rec.Known?
    ensures Count(Handle(s, rec, oracle).store, k) == Count(s, k)
  {
    match rec
    case Dropped =>
    case Malformed => MalformedIsDead(s);
    case NullText(e) => NullTextIsDead(s, e, oracle);
  }

  lemma HandledAppend(log: seq<Record>, faults: nat -> Oracle, k: CounterKey)
    requires log != []
    ensures var n := |log| - 1;
            Sent(Handled(log, faults), k) - Reads(Handled(log, faults), k) ==
            Sent(Handled(log[..n], faults), k) - Reads(Handled(log[..n], faults), k)
            + if IsHandled(log[n], faults(n)) then DeltaOf(Writes(log[n].event), k) else 0
  {
    var n := |log| - 1;
    if IsHandled(log[n], faults(n)) {
      SentAppend(Handled(log[..n], faults), log[n].event, k);
      EventMoves(log[n].event, k);
    } else {
      assert Handled(log, faults) == Handled(log[..n], faults);
    }
  }

  /** One more record keeps the counters right exactly when no reply to its counter's write is lost. */
  lemma OneMoreRecord(s: Store, log: seq<Record>, faults: nat -> Oracle)
    requires log != [] && CountersRight(s, log[..|log| - 1], faults)
    ensures CountersRight(s, log, faults) <==> RepliesKept(log[|log| - 1], faults(|log| - 1))
  {
    var n := |log| - 1;
    var before := Consumed(s, log[..n], faults);
    var rec, oracle := log[n], faults(n);
    var r := Handle(before, rec, oracle);
    forall k ensures Sent(Handled(log, faults), k) - Reads(Handled(log, faults), k) ==
                     Count(before, k) - Count(s, k)
                     + if IsHandled(rec, oracle) then DeltaOf(Writes(rec.event), k) else 0
    {
      HandledAppend(log, faults, k);
    }
    if rec.Known? {
      ExactlyOnceExactly(before, rec.event, oracle, MAX_RETRIES);
      assert r.handled <==> IsHandled(rec, oracle);
      assert CountersRight(s, log, faults) <==> CountedOnce(before, Writes(rec.event), r);
    } else {
      forall k ensures Count(r.store, k) == Count(before, k) {
        UncountedRecord(before, rec, oracle, k);
      }
    }
  }

  ghost predicate AlwaysRight(s: Store, log: seq<Record>, faults: nat -> Oracle) {
    forall m | 0 <= m <= |log| :: CountersRight(s, log[..m], faults)
  }

  ghost predicate AllKept(log: seq<Record>, faults: nat -> Oracle) {
    forall i | 0 <= i < |log| :: RepliesKept(log[i], faults(i))
  }

  lemma AlwaysAppend(s: Store, log: seq<Record>, faults: nat -> Oracle)
    requires log != []
    ensures AlwaysRight(s, log, faults) <==>
            AlwaysRight(s, log[..|log| - 1], faults) && CountersRight(s, log, faults)
  {
    var n := |log| - 1;
    var front := log[..n];
    assert log[..n + 1] == log;
    if AlwaysRight(s, log, faults) {
      forall m | 0 <= m <= |front| ensures CountersRight(s, front[..m], faults) {
        assert front[..m] == log[..m];
      }
      assert CountersRight(s, log[..n + 1], faults);
    } else {
      var m :| 0 <= m <= |log| && !CountersRight(s, log[..m], faults);
      if m <= n {
        assert front[..m] == log[..m];
        assert !CountersRight(s, front[..m], faults);
      } else {
        assert m == n + 1;
      }
    }
  }

  lemma KeptAppend(log: seq<Record>, faults: nat -> Oracle)
    requires log != []
    ensures AllKept(log, faults) <==>
            AllKept(log[..|log| - 1], faults) && RepliesKept(log[|log| - 1], faults(|log| - 1))
  {
  }

  /** Exactly once, over a log.  At every point of the log the unread counters are the handled messages
      less the handled reads, if and only if no attempt at any record lost the reply to the write of
      its counter. */
  lemma {:induction false} LogExactlyOnce(s: Store, log: seq<Record>, faults: nat -> Oracle)
    ensures AlwaysRight(s, log, faults) <==> AllKept(log, faults)
    decreases |log|
  {
    if log == [] {
      assert log[..0] == [];
    } else {
      var n := |log| - 1;
      LogExactlyOnce(s, log[..n], faults);
      AlwaysAppend(s, log, faults);
      KeptAppend(log, faults);
      if AlwaysRight(s, log[..n], faults) {
        assert log[..n][..n] == log[..n];
        OneMoreRecord(s, log, faults);
      }
    }
  }

  /** The first attempt at each loses the reply to its last write, all else is done. */
  function LostOnce(n: nat): Oracle {
    (attempt: nat, i: nat) => if attempt == 0 && i + 1 == n then RaisedApplied else Done
  }

  lemma {:induction false} LaterDone(ws: seq<Write>, attempt: nat, i: nat)
    requires attempt > 0
    ensures AllDone(ws, attempt, LostOnce(|ws|), i)
    decreases |ws| - i
  {
    if i < |ws| { LaterDone(ws, attempt, i + 1); }
  }

  lemma LostOnceTwice(ws: seq<Write>)
    requires ws != []
    ensures Applications(ws, LostOnce(|ws|), MAX_RETRIES, 0) == 2
    ensures SomeAttemptSucceeds(ws, LostOnce(|ws|), MAX_RETRIES, 0) && !NoReplyLost(ws, LostOnce(|ws|), MAX_RETRIES, 0)
  {
    var oracle := LostOnce(|ws|);
    LaterDone(ws, 1, 0);
    LostIsAppliedNotDone(ws, 0, oracle, 0);
    LostIsAppliedNotDone(ws, 1, oracle, 0);
    assert Reached(ws, oracle, MAX_RETRIES, 0, 0) && ReplyLost(ws, oracle, 0);
    assert Applications(ws, oracle, MAX_RETRIES, 1) == 1;
  }

  /** At the end of a log alone that can happen by chance: a message and its read receipt that are each
      counted twice leave the counter where it should be. */
  lemma LossesCanCancel(s: Store, message: MessageEvent, receipt: Event)
    requires receipt.Ack? && receipt.ackType == "read" && CounterOf(receipt) == CounterOf(message)
    ensures var log := [Known(message), Known(receipt)];
            var faults := (i: nat) => LostOnce(|Writes(if i == 0 then message else receipt)|);
            CountersRight(s, log, faults) && !AllKept(log, faults)
  {
    var log := [Known(message), Known(receipt)];
    var faults := (i: nat) => LostOnce(|Writes(if i == 0 then message else receipt)|);
    LostOnceTwice(Writes(message));
    LostOnceTwice(Writes(receipt));
    assert !RepliesKept(log[0], faults(0));
    assert log[..1] == [log[0]] && log[..1][..0] == [];
    var s1 := Consumed(s, log[..1], faults);
    assert Consumed(s, log[..1][..0], faults) == s;
    forall k ensures Count(Consumed(s, log, faults), k) ==
                     Count(s, k) + Sent(Handled(log, faults), k) - Reads(Handled(log, faults), k)
    {
      HandlersWriteCounterLast(message);
      HandlersWriteCounterLast(receipt);
      RetryCount(s, Writes(message), faults(0), MAX_RETRIES, 0, k);
      RetryCount(s1, Writes(receipt), faults(1), MAX_RETRIES, 0, k);
      HandledAppend(log, faults, k);
      HandledAppend(log[..1], faults, k);
      EventMoves(message, k);
      EventMoves(receipt, k);
    }
  }
}
