/** What the persistence worker writes: cells that are upserted and unread counters that are added to. */
module Persistence {
  import opened Options

  datatype Val = Text(s: string) | Num(n: int) | Flag(b: bool) | Null

  /** A column of a row; the row is named by its primary key. */
  datatype Cell = Cell(table: string, row: seq<Val>, column: string)

  type Cells = map<Cell, Val>

  datatype CounterKey = CounterKey(user: string, conv: string)

  datatype Store = Store(cells: Cells, counters: map<CounterKey, int>)

  datatype Write = Upsert(cells: Cells) | Add(key: CounterKey, delta: int)

  /** A payload of the chat-persist topic, by its _persist_type; None where the key is missing. */
  datatype Event =
    | Message(conv: string, timestamp: int, id: string, sender: Option<string>, senderType: Option<string>,
              contentType: Option<string>, text: Option<string>, sequence: Option<int>, unreadTarget: Option<string>)
    | ChatStart(conv: string, timestamp: int, user: string)
    | ChatEnd(conv: string, timestamp: int)
    | Ack(conv: string, timestamp: int, id: string, ackType: string, from: Option<string>)
    | Assignment(conv: string, timestamp: int, agent: string)

  const SECONDS_PER_DAY := 86_400

  /** The UTC day of a timestamp, standing for its YYYYMMDD bucket. */
  function Day(timestamp: int): int { timestamp / SECONDS_PER_DAY }

  lemma DayHolds(timestamp: int, day: int)
    ensures Day(timestamp) == day <==> day * 86_400 <= timestamp < (day + 1) * 86_400
  {
  }

  function Or<T>(x: Option<T>, default: T): T { if x.Some? then x.value else default }

  function Prefix(text: string, n: nat): string { if |text| <= n then text else text[..n] }

  function Row(table: string, row: seq<Val>, columns: map<string, Val>): Write {
    Upsert(map c | c in columns :: Cell(table, row, c) := columns[c])
  }

  lemma RowHolds(table: string, row: seq<Val>, columns: map<string, Val>, c: Cell)
    ensures c in Row(table, row, columns).cells <==> c.table == table && c.row == row && c.column in columns
    ensures c in Row(table, row, columns).cells ==> Row(table, row, columns).cells[c] == columns[c.column]
  {
  }

  function MessageColumns(e: Event): map<string, Val>
    requires e.Message?
  {
    map["sender_id" := Text(Or(e.sender, "")), "sender_type" := Text(Or(e.senderType, "user")),
        "content_type" := Text(Or(e.contentType, "text")), "content" := Text(Or(e.text, "")),
        "seq" := Num(Or(e.sequence, 0)), "status" := Text("sent"), "edited" := Flag(false), "deleted" := Flag(false)]
  }

  /** The writes of each handler, in order. */
  function Writes(e: Event): seq<Write> {
    match e
    case Message(conv, ts, id, _, _, _, text, _, target) =>
      [Row("messages", [Text(conv), Num(Day(ts)), Num(ts), Text(id)], MessageColumns(e)),
       Row("conversations", [Text(conv)],
           map["last_message_at" := Num(ts), "last_message_preview" := Text(Prefix(Or(text, ""), 100))]),
       Add(CounterKey(Or(target, "agent"), conv), 1)]
    case ChatStart(conv, ts, user) =>
      [Row("conversations_by_user", [Text(user), Num(ts), Text(conv)],
           map["status" := Text("active"), "unread_count" := Num(0)]),
       Row("agent_queue", [Text("default"), Num(3), Num(ts), Text(conv)], map["user_id" := Text(user)])]
    case ChatEnd(conv, ts) =>
      [Row("conversations", [Text(conv)], map["status" := Text("ended"), "ended_at" := Num(ts)])]
    case Ack(conv, ts, id, ackType, from) =>
      var receipt := Row("message_acks", [Text(conv), Text(id), Text(ackType)],
                         map["acked_by" := Text(Or(from, "")), "acked_at" := Num(ts)]);
      if ackType == "read" then
        [receipt, Add(CounterKey(if Or(from, "") == "" then "agent" else Or(from, ""), conv), -1)]
      else [receipt]
    case Assignment(conv, ts, agent) =>
      [Row("agent_assignments", [Text(conv), Num(ts)], map["agent_id" := Text(agent), "assigned_by" := Text("system")])]
  }

  function Count(s: Store, k: CounterKey): int { if k in s.counters then s.counters[k] else 0 }

  function Apply(s: Store, w: Write): Store {
    match w
    case Upsert(cells) => s.(cells := s.cells + cells)
    case Add(k, d) => s.(counters := s.counters[k := Count(s, k) + d])
  }

  function ApplyAll(s: Store, ws: seq<Write>): Store
    decreases |ws|
  {
    if ws == [] then s else ApplyAll(Apply(s, ws[0]), ws[1..])
  }

  /** What one payload after another does; each is given by its handler's writes. */
  function PersistLog(s: Store, log: seq<seq<Write>>): Store
    decreases |log|
  {
    if log == [] then s else PersistLog(ApplyAll(s, log[0]), log[1..])
  }

  function LogOf(events: seq<Event>): seq<seq<Write>> {
    seq(|events|, i requires 0 <= i < |events| => Writes(events[i]))
  }

  // ----- a list of writes is a union of cells and a sum for each counter

  function CellsOf(ws: seq<Write>): Cells
    decreases |ws|
  {
    if ws == [] then map[] else (if ws[0].Upsert? then ws[0].cells else map[]) + CellsOf(ws[1..])
  }

  function DeltaOf(ws: seq<Write>, k: CounterKey): int
    decreases |ws|
  {
    if ws == [] then 0 else (if ws[0].Add? && ws[0].key == k then ws[0].delta else 0) + DeltaOf(ws[1..], k)
  }

  lemma UnionAssociates(a: Cells, b: Cells, c: Cells)
    ensures a + b + c == a + (b + c)
  {
  }

  lemma {:induction false} ApplyAllCells(s: Store, ws: seq<Write>)
    ensures ApplyAll(s, ws).cells == s.cells + CellsOf(ws)
    decreases |ws|
  {
    if ws != [] {
      var first: Cells := if ws[0].Upsert? then ws[0].cells else map[];
      ApplyAllCells(Apply(s, ws[0]), ws[1..]);
      assert s.cells + map[] == s.cells;
      UnionAssociates(s.cells, first, CellsOf(ws[1..]));
    }
  }

  lemma {:induction false} ApplyAllCount(s: Store, ws: seq<Write>, k: CounterKey)
    ensures Count(ApplyAll(s, ws), k) == Count(s, k) + DeltaOf(ws, k)
    decreases |ws|
  {
    if ws != [] {
      ApplyAllCount(Apply(s, ws[0]), ws[1..], k);
    }
  }

  function LogCells(log: seq<seq<Write>>): Cells
    decreases |log|
  {
    if log == [] then map[] else CellsOf(log[0]) + LogCells(log[1..])
  }

  /** Increments minus decrements of one counter. */
  function Net(log: seq<seq<Write>>, k: CounterKey): int
    decreases |log|
  {
    if log == [] then 0 else DeltaOf(log[0], k) + Net(log[1..], k)
  }

  lemma {:induction false} PersistLogCells(s: Store, log: seq<seq<Write>>)
    ensures PersistLog(s, log).cells == s.cells + LogCells(log)
    decreases |log|
  {
    if log == [] {
      assert s.cells + map[] == s.cells;
    } else {
      ApplyAllCells(s, log[0]);
      PersistLogCells(ApplyAll(s, log[0]), log[1..]);
      UnionAssociates(s.cells, CellsOf(log[0]), LogCells(log[1..]));
    }
  }

  lemma {:induction false} PersistLogCount(s: Store, log: seq<seq<Write>>, k: CounterKey)
    ensures Count(PersistLog(s, log), k) == Count(s, k) + Net(log, k)
    decreases |log|
  {
    if log != [] {
      ApplyAllCount(s, log[0], k);
      PersistLogCount(ApplyAll(s, log[0]), log[1..], k);
    }
  }

  lemma {:induction false} CellsConcat(a: seq<seq<Write>>, b: seq<seq<Write>>)
    ensures LogCells(a + b) == LogCells(a) + LogCells(b)
    decreases |a|
  {
    if a == [] {
      assert a + b == b && map[] + LogCells(b) == LogCells(b);
    } else {
      CellsConcat(a[1..], b);
      assert (a + b)[1..] == a[1..] + b;
      UnionAssociates(CellsOf(a[0]), LogCells(a[1..]), LogCells(b));
    }
  }

  lemma {:induction false} NetConcat(a: seq<seq<Write>>, b: seq<seq<Write>>, k: CounterKey)
    ensures Net(a + b, k) == Net(a, k) + Net(b, k)
    decreases |a|
  {
    if a == [] {
      assert a + b == b;
    } else {
      NetConcat(a[1..], b, k);
      assert (a + b)[1..] == a[1..] + b;
    }
  }

  // ----- what a counter counts

  predicate SentTo(e: Event, k: CounterKey) { e.Message? && k == CounterKey(Or(e.unreadTarget, "agent"), e.conv) }

  predicate ReadBy(e: Event, k: CounterKey) {
    e.Ack? && e.ackType == "read" && e.conv == k.conv
    && k.user == (if Or(e.from, "") == "" then "agent" else e.from.value)
  }

  function Sent(events: seq<Event>, k: CounterKey): nat {
    if events == [] then 0 else (if SentTo(events[0], k) then 1 else 0) + Sent(events[1..], k)
  }

  function Reads(events: seq<Event>, k: CounterKey): nat {
    if events == [] then 0 else (if ReadBy(events[0], k) then 1 else 0) + Reads(events[1..], k)
  }

  lemma EventMoves(e: Event, k: CounterKey)
    ensures DeltaOf(Writes(e), k) == if SentTo(e, k) then 1 else if ReadBy(e, k) then -1 else 0
  {
    var ws := Writes(e);
    assert DeltaOf([], k) == 0;
    if |ws| == 1 {
      DeltaCons(ws[0], [], k);
    } else if |ws| == 2 {
      DeltaCons(ws[0], [ws[1]], k);
      DeltaCons(ws[1], [], k);
    } else {
      DeltaCons(ws[0], [ws[1], ws[2]], k);
      DeltaCons(ws[1], [ws[2]], k);
      DeltaCons(ws[2], [], k);
    }
  }

  lemma DeltaCons(w: Write, rest: seq<Write>, k: CounterKey)
    ensures DeltaOf([w] + rest, k) == (if w.Add? && w.key == k then w.delta else 0) + DeltaOf(rest, k)
  {
    assert ([w] + rest)[1..] == rest;
  }

  /** An unread counter is the messages sent to its user less the reads that user acknowledged. */
  lemma {:induction false} UnreadIsSentLessRead(events: seq<Event>, k: CounterKey)
    ensures Net(LogOf(events), k) == Sent(events, k) - Reads(events, k)
    decreases |events|
  {
    if events != [] {
      EventMoves(events[0], k);
      UnreadIsSentLessRead(events[1..], k);
      assert LogOf(events)[1..] == LogOf(events[1..]);
    }
  }

  lemma {:induction false} SentAppend(events: seq<Event>, e: Event, k: CounterKey)
    ensures Sent(events + [e], k) == Sent(events, k) + if SentTo(e, k) then 1 else 0
    ensures Reads(events + [e], k) == Reads(events, k) + if ReadBy(e, k) then 1 else 0
    decreases |events|
  {
    if events == [] {
      assert [] + [e] == [e] && [e][1..] == [];
    } else {
      assert (events + [e])[1..] == events[1..] + [e];
      SentAppend(events[1..], e, k);
    }
  }
}
