/** A conversation's messages as the database keeps them, one partition for a UTC day, and the
    endpoint that reads them back. */
module History {
  import opened Options
  import opened Listings
  import opened SortedSets
  import opened Persistence

  const DAYS_BACK: nat := 7

  /** What names a message row within its conversation. */
  datatype MsgKey = MsgKey(day: int, timestamp: int, id: string)

  function RowKey(conv: string, k: MsgKey): seq<Val> { [Text(conv), Num(k.day), Num(k.timestamp), Text(k.id)] }

  predicate IsMessageCell(c: Cell, conv: string) {
    c.table == "messages" && c.column == "status" && |c.row| == 4 && c.row[0] == Text(conv)
    && c.row[1].Num? && c.row[2].Num? && c.row[3].Text?
  }

  function KeyOfCell(c: Cell): MsgKey
    requires |c.row| == 4 && c.row[1].Num? && c.row[2].Num? && c.row[3].Text?
  {
    MsgKey(c.row[1].n, c.row[2].n, c.row[3].s)
  }

  /** The conversation's message rows. */
  function StoredKeys(cells: Cells, conv: string): set<MsgKey> {
    set c | c in cells && IsMessageCell(c, conv) :: KeyOfCell(c)
  }

  function DayKeys(keys: set<MsgKey>, day: int): set<MsgKey> { set k | k in keys && k.day == day }

  // ----- the orders

  /** Clustering order inside a partition: created_at, then message_id. */
  predicate Earlier(a: MsgKey, b: MsgKey) {
    a.timestamp < b.timestamp || (a.timestamp == b.timestamp && LexLess(a.id, b.id))
  }

  /** Newest day first, ascending inside each day. */
  predicate HistoryBefore(a: MsgKey, b: MsgKey) {
    a.day > b.day || (a.day == b.day && Earlier(a, b))
  }

  const HISTORY_ORDER: Less<MsgKey> := (a, b) => HistoryBefore(a, b)

  lemma HistoryOrderIsStrict(keys: set<MsgKey>)
    ensures StrictOrder(keys, HISTORY_ORDER)
  {
    forall a, b | a in keys && b in keys
      ensures !HISTORY_ORDER(a, a) && (a == b || HISTORY_ORDER(a, b) || HISTORY_ORDER(b, a))
    {
      LexTotal(a.id, b.id);
    }
    forall a, b, c | a in keys && b in keys && c in keys && HISTORY_ORDER(a, b) && HISTORY_ORDER(b, c)
      ensures HISTORY_ORDER(a, c)
    {
      if a.day == b.day == c.day && a.timestamp == b.timestamp == c.timestamp { LexTransitive(a.id, b.id, c.id); }
    }
  }

  /** A partition, in clustering order. */
  function Partition(keys: set<MsgKey>, day: int): seq<MsgKey> {
    HistoryOrderIsStrict(DayKeys(keys, day));
    Sort(DayKeys(keys, day), HISTORY_ORDER)
  }

  /** The message rows as each of a request's queries finds them. */
  type Finds = nat -> set<MsgKey>

  /** The partitions of the n days up to today, newest first, one after another, each as its query
      finds it. */
  function Scan(found: Finds, today: int, n: nat): seq<MsgKey> {
    if n == 0 then [] else Scan(found, today, n - 1) + Partition(found(n - 1), today - (n - 1))
  }

  /** The messages of those days. */
  function Window(found: Finds, today: int, n: nat): set<MsgKey> {
    if n == 0 then {} else Window(found, today, n - 1) + DayKeys(found(n - 1), today - (n - 1))
  }

  lemma {:induction false} WindowIs(found: Finds, today: int, n: nat, k: MsgKey)
    ensures k in Window(found, today, n) <==> today - n < k.day <= today && k in found(today - k.day)
    decreases n
  {
    if n > 0 { WindowIs(found, today, n - 1, k); }
  }

  /** Nothing is stored between the queries. */
  function Unchanged(keys: set<MsgKey>): Finds { (i: nat) => keys }

  lemma PartitionLists(keys: set<MsgKey>, day: int)
    ensures Lists(Partition(keys, day), DayKeys(keys, day), HISTORY_ORDER)
  {
    HistoryOrderIsStrict(DayKeys(keys, day));
    SortLists(DayKeys(keys, day), HISTORY_ORDER);
  }

  lemma WindowLater(found: Finds, today: int, n: nat)
    ensures forall x | x in Window(found, today, n) :: x.day > today - n
  {
    forall x | x in Window(found, today, n) ensures x.day > today - n {
      WindowIs(found, today, n, x);
    }
  }

  lemma {:induction false} ScanLists(found: Finds, today: int, n: nat)
    ensures Lists(Scan(found, today, n), Window(found, today, n), HISTORY_ORDER)
    decreases n
  {
    if n > 0 {
      var day := today - (n - 1);
      ScanLists(found, today, n - 1);
      PartitionLists(found(n - 1), day);
      WindowLater(found, today, n - 1);
      ConcatLists(Scan(found, today, n - 1), Partition(found(n - 1), day),
                  Window(found, today, n - 1), DayKeys(found(n - 1), day), day);
    }
  }

  lemma ConcatLists(a: seq<MsgKey>, b: seq<MsgKey>, s: set<MsgKey>, t: set<MsgKey>, day: int)
    requires Lists(a, s, HISTORY_ORDER) && Lists(b, t, HISTORY_ORDER)
    requires (forall x | x in s :: x.day > day) && (forall y | y in t :: y.day == day)
    ensures Lists(a + b, s + t, HISTORY_ORDER)
  {
    forall i, j | 0 <= i < j < |a + b| ensures HISTORY_ORDER((a + b)[i], (a + b)[j]) {
      assert i < |a| ==> a[i] in a;
      assert j >= |a| ==> b[j - |a|] in b;
    }
  }

  /** Scanning days newest first gives exactly the window's messages in history order, none twice:
      the one listing there is. */
  lemma ScanIsHistory(found: Finds, today: int, n: nat)
    ensures StrictOrder(Window(found, today, n), HISTORY_ORDER)
    ensures Scan(found, today, n) == Sort(Window(found, today, n), HISTORY_ORDER)
    ensures forall k :: k in Scan(found, today, n) <==> k in Window(found, today, n)
  {
    var w := Window(found, today, n);
    HistoryOrderIsStrict(w);
    ScanLists(found, today, n);
    SortLists(w, HISTORY_ORDER);
    ListsUnique(Scan(found, today, n), Sort(w, HISTORY_ORDER), w, HISTORY_ORDER);
  }

  /** So of two listed messages the first is of a later day, or of the same day and earlier, or of the same
      instant and with the lesser id in byte order. */
  lemma ListedInOrder(found: Finds, today: int, n: nat, i: nat, j: nat)
    requires i < j < |Scan(found, today, n)|
    ensures var a, b := Scan(found, today, n)[i], Scan(found, today, n)[j];
            || a.day > b.day
            || (a.day == b.day && a.timestamp < b.timestamp)
            || (a.day == b.day && a.timestamp == b.timestamp && LexLess(a.id, b.id))
  {
    ScanLists(found, today, n);
    assert HISTORY_ORDER(Scan(found, today, n)[i], Scan(found, today, n)[j]);
  }

  /** Rows are only ever added.  A message of those days that was stored before the first query is
      listed, and whatever is listed is stored when the last query has returned. */
  lemma ScanWhileStoring(found: Finds, today: int, n: nat, before: set<MsgKey>, after: set<MsgKey>)
    requires forall i: nat | i < n :: before <= found(i) <= after
    ensures forall k | k in Window(Unchanged(before), today, n) :: k in Scan(found, today, n)
    ensures forall k | k in Scan(found, today, n) :: k in Window(Unchanged(after), today, n)
  {
    ScanIsHistory(found, today, n);
    forall k ensures k in Window(Unchanged(before), today, n) ==> k in Window(found, today, n)
             ensures k in Window(found, today, n) ==> k in Window(Unchanged(after), today, n)
    {
      WindowIs(found, today, n, k);
      WindowIs(Unchanged(before), today, n, k);
      WindowIs(Unchanged(after), today, n, k);
    }
  }

  // ----- the endpoint

  /** A message row: its key and its other columns. */
  datatype MsgRow = MsgRow(key: MsgKey, columns: map<string, Val>)

  /** A message as the endpoint gives it out; a column that is not there is None. */
  datatype MessageResponse = MessageResponse(
    messageId: string, conversationId: string, senderId: Option<Val>, senderType: Option<Val>, content: Option<Val>,
    contentType: Option<Val>, createdAt: int, sequence: Option<Val>, status: Option<Val>)

  function Field(row: MsgRow, column: string): Option<Val> {
    if column in row.columns then Some(row.columns[column]) else None
  }

  function Shown(conv: string, row: MsgRow): MessageResponse {
    MessageResponse(row.key.id, conv, Field(row, "sender_id"), Field(row, "sender_type"), Field(row, "content"),
                    Field(row, "content_type"), row.key.timestamp, Field(row, "seq"), Field(row, "status"))
  }

  function ShownAll(conv: string, rows: seq<MsgRow>): (r: seq<MessageResponse>)
    ensures |r| == |rows|
    ensures forall i | 0 <= i < |rows| :: r[i] == Shown(conv, rows[i])
  {
    if rows == [] then [] else [Shown(conv, rows[0])] + ShownAll(conv, rows[1..])
  }

  datatype Response = NotFound | Forbidden | Messages(messages: seq<MessageResponse>)

  function RowAt(cells: Cells, conv: string, k: MsgKey): MsgRow {
    MsgRow(k, map c | c in cells && c.table == "messages" && c.row == RowKey(conv, k) :: c.column := cells[c])
  }

  function RowsAt(cells: Cells, conv: string, keys: seq<MsgKey>): (rows: seq<MsgRow>)
    ensures |rows| == |keys|
    ensures forall i | 0 <= i < |keys| :: rows[i] == RowAt(cells, conv, keys[i])
  {
    if keys == [] then [] else [RowAt(cells, conv, keys[0])] + RowsAt(cells, conv, keys[1..])
  }

  /** A day's rows, in clustering order. */
  function DayRows(cells: Cells, conv: string, day: int): seq<MsgRow> {
    RowsAt(cells, conv, Partition(StoredKeys(cells, conv), day))
  }

  /** The rows of the n days up to today, newest day first, each day as its query finds it. */
  function ScanRows(at: nat -> Cells, conv: string, today: int, n: nat): seq<MsgRow> {
    Joined(Days(at, conv, today), n)
  }

  function Days(at: nat -> Cells, conv: string, today: int): nat -> seq<MsgRow> {
    (i: nat) => DayRows(at(i), conv, today - i)
  }

  function Joined(parts: nat -> seq<MsgRow>, n: nat): seq<MsgRow> {
    if n == 0 then [] else Joined(parts, n - 1) + parts(n - 1)
  }

  predicate ConversationExists(cells: Cells, conv: string) {
    exists c | c in cells :: c.table == "conversations" && c.row == [Text(conv)]
  }

  /** May an admin with these bots read it?  A row without a bot id is open to all. */
  predicate MayRead(cells: Cells, conv: string, bots: seq<string>) {
    var bot := Cell("conversations", [Text(conv)], "bot_id");
    bot !in cells || cells[bot] == Null || cells[bot] == Text("") || (cells[bot].Text? && cells[bot].s in bots)
  }

  /** One SELECT with its LIMIT, which the database requires to be positive. */
  method QueryBucket(cells: Cells, conv: string, day: int, limit: int) returns (rows: seq<MsgRow>)
    requires limit >= 1
    ensures rows == First(DayRows(cells, conv, day), limit)
  {
    rows := DayRows(cells, conv, day);
    if |rows| > limit {
      rows := rows[..limit];
    }
  }

  /** What each of these states holds of the conversation. */
  function Found(at: nat -> Cells, conv: string): Finds { (i: nat) => StoredKeys(at(i), conv) }

  /** get_messages: the given day, or the last seven days newest first, up to limit messages.  The
      access check finds the database as cells, the i-th of the queries as at(i). */
  method GetMessages(cells: Cells, at: nat -> Cells, conv: string, bucket: Option<int>, limit: int, today: int,
                     bots: seq<string>)
    returns (r: Response)
    requires 1 <= limit <= 200
    ensures r.NotFound? <==> forall c | c in cells :: c.table != "conversations" || c.row != [Text(conv)]
    ensures var bot := Cell("conversations", [Text(conv)], "bot_id");
            r.Forbidden? <==> bot in cells && cells[bot] != Null && cells[bot] != Text("")
                              && forall b | b in bots :: cells[bot] != Text(b)
    ensures var bot := Cell("conversations", [Text(conv)], "bot_id");
            r.Messages? ==>
              bot !in cells || cells[bot] in [Null, Text("")] || exists b | b in bots :: cells[bot] == Text(b)
    ensures r.Messages? && bucket.Some? ==>
              r.messages == ShownAll(conv, First(DayRows(at(0), conv, bucket.value), limit))
    ensures r.Messages? && bucket.None? ==> r.messages == ShownAll(conv, First(ScanRows(at, conv, today, 7), limit))
  {
    if !ConversationExists(cells, conv) {
      return NotFound;
    }
    if !MayRead(cells, conv, bots) {
      return Forbidden;
    }
    if bucket.Some? {
      var rows := QueryBucket(at(0), conv, bucket.value, limit);
      return Messages(ShownAll(conv, rows));
    }
    var messages := ScanBack(at, conv, limit, today, DAYS_BACK);
    return Messages(ShownAll(conv, messages));
  }

  /** The loop over the days, with a limit that shrinks as messages are found. */
  method ScanBack(at: nat -> Cells, conv: string, limit: int, today: int, days: nat)
    returns (messages: seq<MsgRow>)
    requires limit >= 1
    ensures messages == First(ScanRows(at, conv, today, days), limit)
  {
    ghost var parts := Days(at, conv, today);
    assert ScanRows(at, conv, today, days) == Joined(parts, days);
    messages := [];
    for i := 0 to days
      invariant messages == Joined(parts, i) && |messages| < limit
    {
      var rows := QueryBucket(at(i), conv, today - i, limit - |messages|);
      assert rows == First(parts(i), limit - |messages|);
      messages := messages + rows;
      if |messages| >= limit {
        JoinStops(parts, i, days, limit);
        return;
      }
    }
  }

  lemma {:induction false} JoinPrefix(parts: nat -> seq<MsgRow>, m: nat, n: nat)
    requires m <= n
    ensures Joined(parts, m) <= Joined(parts, n)
    decreases n
  {
    if m < n { JoinPrefix(parts, m, n - 1); }
  }

  /** Once the limit is reached, later days cannot add anything. */
  lemma JoinStops(parts: nat -> seq<MsgRow>, i: nat, days: nat, limit: nat)
    requires i < days && |Joined(parts, i)| < limit
    requires limit <= |Joined(parts, i)| + |First(parts(i), limit - |Joined(parts, i)|)|
    ensures Joined(parts, i) + First(parts(i), limit - |Joined(parts, i)|) == First(Joined(parts, days), limit)
  {
    JoinPrefix(parts, i + 1, days);
    FirstOfJoin(Joined(parts, i), parts(i), Joined(parts, days), limit);
  }

  lemma FirstOfJoin(a: seq<MsgRow>, b: seq<MsgRow>, all: seq<MsgRow>, limit: nat)
    requires a + b <= all && |a| < limit <= |a| + |First(b, limit - |a|)|
    ensures a + First(b, limit - |a|) == First(all, limit)
  {
    assert all == a + b + all[|a + b|..];
    assert First(b, limit - |a|) == b[..limit - |a|];
    assert all[..limit] == (a + b)[..limit] == a + b[..limit - |a|];
  }

  /** Every query finds the same. */
  function Always(cells: Cells): nat -> Cells { (i: nat) => cells }

  /** The row of this key as the query of its day, one of the last n, found it. */
  predicate ReadThen(at: nat -> Cells, conv: string, today: int, n: nat, k: MsgKey, row: MsgRow) {
    today - n < k.day <= today && row == RowAt(at(today - k.day), conv, k)
  }

  predicate RowsRead(at: nat -> Cells, conv: string, today: int, n: nat, keys: seq<MsgKey>, rows: seq<MsgRow>) {
    |rows| == |keys| && forall i | 0 <= i < |keys| :: ReadThen(at, conv, today, n, keys[i], rows[i])
  }

  lemma RowsReadConcat(at: nat -> Cells, conv: string, today: int, n: nat, a: seq<MsgKey>, r: seq<MsgRow>,
                       b: seq<MsgKey>, q: seq<MsgRow>)
    requires n > 0 && RowsRead(at, conv, today, n - 1, a, r) && RowsRead(at, conv, today, n, b, q)
    ensures RowsRead(at, conv, today, n, a + b, r + q)
  {
    forall i | 0 <= i < |a + b| ensures ReadThen(at, conv, today, n, (a + b)[i], (r + q)[i]) {
      if i < |a| {
        assert ReadThen(at, conv, today, n - 1, a[i], r[i]);
      } else {
        assert ReadThen(at, conv, today, n, b[i - |a|], q[i - |a|]);
      }
    }
  }

  lemma DayRowsRead(at: nat -> Cells, conv: string, today: int, i: nat)
    ensures RowsRead(at, conv, today, i + 1, Partition(StoredKeys(at(i), conv), today - i),
                     DayRows(at(i), conv, today - i))
  {
    var keys, rows := Partition(StoredKeys(at(i), conv), today - i), DayRows(at(i), conv, today - i);
    PartitionLists(StoredKeys(at(i), conv), today - i);
    forall j | 0 <= j < |keys| ensures ReadThen(at, conv, today, i + 1, keys[j], rows[j]) {
      assert keys[j] in keys && keys[j].day == today - i;
      assert rows[j] == RowAt(at(i), conv, keys[j]);
    }
  }

  lemma OneDayMore(at: nat -> Cells, conv: string, today: int, i: nat)
    ensures ScanRows(at, conv, today, i + 1) == ScanRows(at, conv, today, i) + DayRows(at(i), conv, today - i)
    ensures Scan(Found(at, conv), today, i + 1) ==
            Scan(Found(at, conv), today, i) + Partition(StoredKeys(at(i), conv), today - i)
  {
  }

  /** The rows are those of the scanned keys, each with its columns as the query of its own day found
      them. */
  lemma {:induction false} RowsAreScan(at: nat -> Cells, conv: string, today: int, n: nat)
    ensures RowsRead(at, conv, today, n, Scan(Found(at, conv), today, n), ScanRows(at, conv, today, n))
    decreases n
  {
    if n > 0 {
      var i: nat := n - 1;
      RowsAreScan(at, conv, today, i);
      DayRowsRead(at, conv, today, i);
      OneDayMore(at, conv, today, i);
      RowsReadConcat(at, conv, today, n, Scan(Found(at, conv), today, i), ScanRows(at, conv, today, i),
                     Partition(StoredKeys(at(i), conv), today - i), DayRows(at(i), conv, today - i));
    }
  }

  /** Each of these messages' rows is among rows, as the query of its day found it. */
  predicate AllRead(at: nat -> Cells, conv: string, today: int, keys: set<MsgKey>, rows: seq<MsgRow>) {
    forall k | k in keys :: k.day <= today && RowAt(at(today - k.day), conv, k) in rows
  }

  /** A result shorter than the limit holds the row of every message of the days scanned. */
  lemma ShortMeansAll(at: nat -> Cells, conv: string, today: int, days: nat, limit: nat)
    requires |First(ScanRows(at, conv, today, days), limit)| < limit
    ensures AllRead(at, conv, today, Window(Found(at, conv), today, days),
                    First(ScanRows(at, conv, today, days), limit))
  {
    AllAreRead(at, conv, today, days);
  }

  lemma AllAreRead(at: nat -> Cells, conv: string, today: int, n: nat)
    ensures AllRead(at, conv, today, Window(Found(at, conv), today, n), ScanRows(at, conv, today, n))
  {
    var rows, keys := ScanRows(at, conv, today, n), Scan(Found(at, conv), today, n);
    ScanIsHistory(Found(at, conv), today, n);
    RowsAreScan(at, conv, today, n);
    forall k | k in Window(Found(at, conv), today, n)
      ensures k.day <= today && RowAt(at(today - k.day), conv, k) in rows
    {
      var i :| 0 <= i < |keys| && keys[i] == k;
      assert ReadThen(at, conv, today, n, keys[i], rows[i]);
    }
  }

  // ----- from the persisted log to the history

  function MessageKeys(events: seq<Event>, conv: string): set<MsgKey> {
    set i | 0 <= i < |events| && events[i].Message? && events[i].conv == conv ::
      MsgKey(Day(events[i].timestamp), events[i].timestamp, events[i].id)
  }

  lemma KeyStored(cells: Cells, conv: string, k: MsgKey)
    ensures k in StoredKeys(cells, conv) <==> Cell("messages", RowKey(conv, k), "status") in cells
  {
    var cell := Cell("messages", RowKey(conv, k), "status");
    if k in StoredKeys(cells, conv) {
      var c :| c in cells && IsMessageCell(c, conv) && KeyOfCell(c) == k;
      assert c.row == RowKey(conv, k);
    }
    if cell in cells { assert IsMessageCell(cell, conv) && KeyOfCell(cell) == k; }
  }

  predicate NoMessageCell(w: Write) { w.Upsert? ==> forall c | c in w.cells :: c.table != "messages" }

  lemma {:induction false} NoneInCells(ws: seq<Write>)
    requires forall i | 0 <= i < |ws| :: NoMessageCell(ws[i])
    ensures forall c | c in CellsOf(ws) :: c.table != "messages"
    decreases |ws|
  {
    if ws != [] { NoneInCells(ws[1..]); assert NoMessageCell(ws[0]); }
  }

  lemma OthersWriteNoMessage(e: Event)
    requires !e.Message?
    ensures forall c | c in CellsOf(Writes(e)) :: c.table != "messages"
  {
    NoneInCells(Writes(e));
  }

  predicate Names(e: Event, conv: string, k: MsgKey) {
    e.Message? && e.conv == conv && k == MsgKey(Day(e.timestamp), e.timestamp, e.id)
  }

  lemma MessageWritesItsRow(e: Event, c: Cell)
    requires e.Message? && c.table == "messages"
    ensures c in CellsOf(Writes(e)) <==>
            c.row == RowKey(e.conv, MsgKey(Day(e.timestamp), e.timestamp, e.id)) && c.column in MessageColumns(e)
    ensures c in CellsOf(Writes(e)) ==> CellsOf(Writes(e))[c] == MessageColumns(e)[c.column]
  {
    var ws := Writes(e);
    assert |ws| == 3 && ws[0].Upsert?;
    NoneInCells(ws[1..]);
    assert c in CellsOf(ws) <==> c in ws[0].cells;
    RowHolds("messages", [Text(e.conv), Num(Day(e.timestamp)), Num(e.timestamp), Text(e.id)], MessageColumns(e), c);
  }

  /** Of all handlers only the message handler writes message rows, and just its own. */
  lemma EventStores(e: Event, conv: string, k: MsgKey, column: string)
    ensures var c := Cell("messages", RowKey(conv, k), column);
            && (c in CellsOf(Writes(e)) <==> Names(e, conv, k) && column in MessageColumns(e))
            && (c in CellsOf(Writes(e)) ==> CellsOf(Writes(e))[c] == MessageColumns(e)[column])
  {
    if e.Message? {
      MessageWritesItsRow(e, Cell("messages", RowKey(conv, k), column));
      SameRowKey(conv, k, e.conv, MsgKey(Day(e.timestamp), e.timestamp, e.id));
    } else {
      OthersWriteNoMessage(e);
    }
  }

  lemma SameRowKey(conv: string, k: MsgKey, conv': string, k': MsgKey)
    ensures RowKey(conv, k) == RowKey(conv', k') <==> conv == conv' && k == k'
  {
    var r, r' := RowKey(conv, k), RowKey(conv', k');
    assert r == r' ==> r[0] == r'[0] && r[1] == r'[1] && r[2] == r'[2] && r[3] == r'[3];
  }

  /** The last logged message of this key. */
  function LastNamed(events: seq<Event>, conv: string, k: MsgKey): (r: Option<Event>)
    ensures r.Some? ==> Names(r.value, conv, k) && r.value in events
    ensures r.None? ==> forall i | 0 <= i < |events| :: !Names(events[i], conv, k)
    decreases |events|
  {
    if events == [] then None
    else
      var later := LastNamed(events[1..], conv, k);
      if later.Some? then later else if Names(events[0], conv, k) then Some(events[0]) else None
  }

  /** A message row holds, in every column, what the last logged message of its key says. */
  lemma {:induction false} LogStores(events: seq<Event>, conv: string, k: MsgKey, column: string)
    ensures var c, last := Cell("messages", RowKey(conv, k), column), LastNamed(events, conv, k);
            && (c in LogCells(LogOf(events)) <==> last.Some? && column in MessageColumns(last.value))
            && (c in LogCells(LogOf(events)) ==> LogCells(LogOf(events))[c] == MessageColumns(last.value)[column])
    decreases |events|
  {
    if events != [] {
      var log := LogOf(events);
      assert log[0] == Writes(events[0]) && log[1..] == LogOf(events[1..]);
      EventStores(events[0], conv, k, column);
      LogStores(events[1..], conv, k, column);
    }
  }

  lemma NamedIsKey(events: seq<Event>, conv: string, k: MsgKey)
    ensures LastNamed(events, conv, k).Some? <==> k in MessageKeys(events, conv)
  {
    var last := LastNamed(events, conv, k);
    if last.Some? {
      var i :| 0 <= i < |events| && events[i] == last.value;
      assert events[i].Message?;
    }
    if k in MessageKeys(events, conv) {
      var i :| 0 <= i < |events| && events[i].Message? && events[i].conv == conv
               && k == MsgKey(Day(events[i].timestamp), events[i].timestamp, events[i].id);
      assert Names(events[i], conv, k);
    }
  }

  /** The row that the last logged message of this key says. */
  function LoggedRow(events: seq<Event>, conv: string, k: MsgKey): MsgRow
    requires LastNamed(events, conv, k).Some?
  {
    MsgRow(k, MessageColumns(LastNamed(events, conv, k).value))
  }

  predicate RowIsLogged(events: seq<Event>, conv: string, k: MsgKey, row: MsgRow) {
    LastNamed(events, conv, k).Some? && row == LoggedRow(events, conv, k)
  }

  lemma RowAtHas(cells: Cells, conv: string, k: MsgKey, column: string)
    ensures var c, columns := Cell("messages", RowKey(conv, k), column), RowAt(cells, conv, k).columns;
            (column in columns <==> c in cells) && (c in cells ==> columns[column] == cells[c])
  {
  }

  /** After any log of payloads, the rows of a conversation are its logged messages, each with the
      columns of the last one logged under its key. */
  lemma LogRows(events: seq<Event>, conv: string)
    ensures var cells := PersistLog(Store(map[], map[]), LogOf(events)).cells;
            && StoredKeys(cells, conv) == MessageKeys(events, conv)
            && forall k | k in StoredKeys(cells, conv) :: RowIsLogged(events, conv, k, RowAt(cells, conv, k))
  {
    var empty := Store(map[], map[]);
    var cells := PersistLog(empty, LogOf(events)).cells;
    PersistLogCells(empty, LogOf(events));
    assert cells == LogCells(LogOf(events));
    forall k ensures k in StoredKeys(cells, conv) <==> k in MessageKeys(events, conv) {
      KeyStored(cells, conv, k);
      LogStores(events, conv, k, "status");
      NamedIsKey(events, conv, k);
    }
    assert StoredKeys(cells, conv) == MessageKeys(events, conv);
    forall k | k in StoredKeys(cells, conv) ensures RowIsLogged(events, conv, k, RowAt(cells, conv, k)) {
      NamedIsKey(events, conv, k);
      LogRow(events, conv, k);
    }
  }

  lemma LogRow(events: seq<Event>, conv: string, k: MsgKey)
    requires LastNamed(events, conv, k).Some?
    ensures RowAt(LogCells(LogOf(events)), conv, k) == LoggedRow(events, conv, k)
  {
    var cells := LogCells(LogOf(events));
    var a, b := RowAt(cells, conv, k).columns, LoggedRow(events, conv, k).columns;
    forall column ensures (column in a <==> column in b) && (column in a ==> a[column] == b[column]) {
      RowAtHas(cells, conv, k, column);
      LogStores(events, conv, k, column);
    }
    assert a == b;
  }

  /** These rows are what is logged under these keys. */
  predicate AllLogged(events: seq<Event>, conv: string, keys: seq<MsgKey>, rows: seq<MsgRow>) {
    |rows| == |keys| && forall i | 0 <= i < |keys| :: RowIsLogged(events, conv, keys[i], rows[i])
  }

  /** This message as it is to be given out. */
  function SentAs(e: Event): MessageResponse
    requires e.Message?
  {
    MessageResponse(e.id, e.conv, Some(Text(if e.sender.Some? then e.sender.value else "")),
                    Some(Text(if e.senderType.Some? then e.senderType.value else "user")),
                    Some(Text(if e.text.Some? then e.text.value else "")),
                    Some(Text(if e.contentType.Some? then e.contentType.value else "text")), e.timestamp,
                    Some(Num(if e.sequence.Some? then e.sequence.value else 0)), Some(Text("sent")))
  }

  /** What is written of a message comes back as sent. */
  lemma ShownAsSent(e: Event, conv: string, k: MsgKey)
    requires Names(e, conv, k)
    ensures Shown(conv, MsgRow(k, MessageColumns(e))) == SentAs(e)
  {
  }

  predicate AllSent(events: seq<Event>, conv: string, keys: seq<MsgKey>, shown: seq<MessageResponse>) {
    && |shown| == |keys|
    && forall i | 0 <= i < |keys| ::
         LastNamed(events, conv, keys[i]).Some? && shown[i] == SentAs(LastNamed(events, conv, keys[i]).value)
  }

  lemma LoggedIsSent(events: seq<Event>, conv: string, keys: seq<MsgKey>, rows: seq<MsgRow>, limit: nat)
    requires AllLogged(events, conv, keys, rows)
    ensures AllSent(events, conv, First(keys, limit), ShownAll(conv, First(rows, limit)))
  {
    forall i | 0 <= i < |First(keys, limit)|
      ensures LastNamed(events, conv, keys[i]).Some?
              && Shown(conv, rows[i]) == SentAs(LastNamed(events, conv, keys[i]).value)
    {
      assert RowIsLogged(events, conv, keys[i], rows[i]);
      ShownAsSent(LastNamed(events, conv, keys[i]).value, conv, keys[i]);
    }
  }

  /** The scan of the database after a log lists the log's messages of those days. */
  lemma ScanIsWindow(events: seq<Event>, conv: string, today: int, days: nat)
    ensures var cells := PersistLog(Store(map[], map[]), LogOf(events)).cells;
            var window := Window(Unchanged(MessageKeys(events, conv)), today, days);
            && StrictOrder(window, HISTORY_ORDER)
            && Scan(Found(Always(cells), conv), today, days) == Sort(window, HISTORY_ORDER)
  {
    var cells := PersistLog(Store(map[], map[]), LogOf(events)).cells;
    LogRows(events, conv);
    SameFinds(Found(Always(cells), conv), Unchanged(MessageKeys(events, conv)), today, days);
    ScanIsHistory(Unchanged(MessageKeys(events, conv)), today, days);
  }

  /** The history equals the flat log.  The messages logged for a conversation in the last days are in
      one order, newest day first and ascending inside each day; what the endpoint lists is the first
      limit of them, each as the last message logged under its key was sent. */
  lemma HistoryIsLog(events: seq<Event>, conv: string, limit: nat, today: int, days: nat)
    ensures var cells := PersistLog(Store(map[], map[]), LogOf(events)).cells;
            var window := Window(Unchanged(MessageKeys(events, conv)), today, days);
            && StrictOrder(window, HISTORY_ORDER)
            && AllSent(events, conv, First(Sort(window, HISTORY_ORDER), limit),
                       ShownAll(conv, First(ScanRows(Always(cells), conv, today, days), limit)))
  {
    var cells := PersistLog(Store(map[], map[]), LogOf(events)).cells;
    LogRows(events, conv);
    ScanIsWindow(events, conv, today, days);
    ScanLogged(events, conv, cells, today, days);
    LoggedIsSent(events, conv, Scan(Found(Always(cells), conv), today, days),
                 ScanRows(Always(cells), conv, today, days), limit);
  }

  lemma ScanLogged(events: seq<Event>, conv: string, cells: Cells, today: int, n: nat)
    requires forall k | k in StoredKeys(cells, conv) :: RowIsLogged(events, conv, k, RowAt(cells, conv, k))
    ensures AllLogged(events, conv, Scan(Found(Always(cells), conv), today, n),
                      ScanRows(Always(cells), conv, today, n))
  {
    var keys, rows := Scan(Found(Always(cells), conv), today, n), ScanRows(Always(cells), conv, today, n);
    ScanIsHistory(Found(Always(cells), conv), today, n);
    RowsAreScan(Always(cells), conv, today, n);
    forall i | 0 <= i < |keys| ensures RowIsLogged(events, conv, keys[i], rows[i]) {
      assert keys[i] in keys && ReadThen(Always(cells), conv, today, n, keys[i], rows[i]);
      WindowIs(Found(Always(cells), conv), today, n, keys[i]);
    }
  }

  lemma {:induction false} SameFinds(found: Finds, found': Finds, today: int, n: nat)
    requires forall i: nat :: found(i) == found'(i)
    ensures Scan(found, today, n) == Scan(found', today, n)
    decreases n
  {
    if n > 0 { SameFinds(found, found', today, n - 1); }
  }
}
