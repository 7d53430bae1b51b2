/** What the database says after any log of payloads, table by table. */
module StoredLog {
  import opened Options
  import opened Persistence

  /** What a payload says of some cell, if anything. */
  type Says = Event -> Option<Val>

  /** What the last payload that says anything says. */
  function Last(events: seq<Event>, says: Says): Option<Val>
    decreases |events|
  {
    if events == [] then None
    else
      var later := Last(events[1..], says);
      if later.Some? then later else says(events[0])
  }

  function At(cells: Cells, c: Cell): Option<Val> { if c in cells then Some(cells[c]) else None }

  ghost predicate IsSaid(c: Cell, says: Says) { forall e :: At(CellsOf(Writes(e)), c) == says(e) }

  lemma AtUnion(a: Cells, b: Cells, c: Cell)
    ensures At(a + b, c) == if At(b, c).Some? then At(b, c) else At(a, c)
  {
  }

  lemma FirstLogged(events: seq<Event>)
    requires events != []
    ensures LogCells(LogOf(events)) == CellsOf(Writes(events[0])) + LogCells(LogOf(events[1..]))
  {
    assert LogOf(events)[0] == Writes(events[0]) && LogOf(events)[1..] == LogOf(events[1..]);
  }

  lemma {:induction false} LastCounts(events: seq<Event>, c: Cell, says: Says)
    requires IsSaid(c, says)
    ensures At(LogCells(LogOf(events)), c) == Last(events, says)
    decreases |events|
  {
    if events == [] {
      assert LogOf(events) == [];
    } else {
      FirstLogged(events);
      AtUnion(CellsOf(Writes(events[0])), LogCells(LogOf(events[1..])), c);
      LastCounts(events[1..], c, says);
    }
  }

  function InRow(table: string, row: seq<Val>, columns: map<string, Val>, c: Cell): Option<Val> {
    if c.table == table && c.row == row && c.column in columns then Some(columns[c.column]) else None
  }

  lemma RowAt(table: string, row: seq<Val>, columns: map<string, Val>, c: Cell)
    ensures At(Row(table, row, columns).cells, c) == InRow(table, row, columns, c)
  {
    RowHolds(table, row, columns, c);
  }

  lemma OneRow(w: Write, c: Cell)
    requires w.Upsert?
    ensures At(CellsOf([w]), c) == At(w.cells, c)
    ensures forall k, d :: At(CellsOf([w, Add(k, d)]), c) == At(w.cells, c)
  {
    assert CellsOf([]) == map[];
    forall k, d ensures At(CellsOf([w, Add(k, d)]), c) == At(w.cells, c) {
      assert [w, Add(k, d)][1..] == [Add(k, d)] && [Add(k, d)][1..] == [];
    }
  }

  lemma TwoRows(v: Write, w: Write, c: Cell)
    requires v.Upsert? && w.Upsert?
    ensures At(CellsOf([v, w]), c) == if c in w.cells then At(w.cells, c) else At(v.cells, c)
    ensures forall k, d :: At(CellsOf([v, w, Add(k, d)]), c) == if c in w.cells then At(w.cells, c) else At(v.cells, c)
  {
    OneRow(w, c);
    assert [v, w][1..] == [w];
    forall k, d
      ensures At(CellsOf([v, w, Add(k, d)]), c) == if c in w.cells then At(w.cells, c) else At(v.cells, c) {
      assert [v, w, Add(k, d)][1..] == [w, Add(k, d)];
    }
  }

  // ----- which cells a payload writes

  /** The tables the handlers write. */
  datatype Table = Messages | Conversations | Inbox | Queue | Receipts | Assignments

  function Name(t: Table): string {
    match t
    case Messages => "messages"
    case Conversations => "conversations"
    case Inbox => "conversations_by_user"
    case Queue => "agent_queue"
    case Receipts => "message_acks"
    case Assignments => "agent_assignments"
  }

  lemma NamesDiffer(t: Table, t': Table)
    ensures Name(t) == Name(t') <==> t == t'
  {
    assert Name(t)[0] != Name(t')[0] || |Name(t)| != |Name(t')| || Name(t)[6] != Name(t')[6] || t == t';
  }

  lemma AllNamesDiffer(t: Table)
    ensures forall t' | t' != t :: Name(t') != Name(t)
  {
    forall t' | t' != t ensures Name(t') != Name(t) {
      NamesDiffer(t, t');
    }
  }

  /** What the payload says of a cell that is not a message's. */
  function Written(e: Event, c: Cell): Option<Val> {
    match e
    case Message(conv, ts, _, _, _, _, text, _, _) =>
      InRow(Name(Conversations), [Text(conv)],
            map["last_message_at" := Num(ts), "last_message_preview" := Text(Prefix(Or(text, ""), 100))], c)
    case ChatStart(conv, ts, user) =>
      if c.table == Name(Queue)
      then InRow(Name(Queue), [Text("default"), Num(3), Num(ts), Text(conv)], map["user_id" := Text(user)], c)
      else InRow(Name(Inbox), [Text(user), Num(ts), Text(conv)],
                 map["status" := Text("active"), "unread_count" := Num(0)], c)
    case ChatEnd(conv, ts) =>
      InRow(Name(Conversations), [Text(conv)], map["status" := Text("ended"), "ended_at" := Num(ts)], c)
    case Ack(conv, ts, id, kind, from) =>
      InRow(Name(Receipts), [Text(conv), Text(id), Text(kind)],
            map["acked_by" := Text(Or(from, "")), "acked_at" := Num(ts)], c)
    case Assignment(conv, ts, agent) =>
      InRow(Name(Assignments), [Text(conv), Num(ts)],
            map["agent_id" := Text(agent), "assigned_by" := Text("system")], c)
  }

  lemma MessageIs(e: Event, c: Cell)
    requires e.Message? && c.table != Name(Messages)
    ensures At(CellsOf(Writes(e)), c) == Written(e, c)
  {
    TwoRows(Writes(e)[0], Writes(e)[1], c);
    RowAt("messages", [Text(e.conv), Num(Day(e.timestamp)), Num(e.timestamp), Text(e.id)], MessageColumns(e), c);
    RowAt("conversations", [Text(e.conv)],
          map["last_message_at" := Num(e.timestamp), "last_message_preview" := Text(Prefix(Or(e.text, ""), 100))], c);
  }

  lemma ChatStartIs(e: Event, c: Cell)
    requires e.ChatStart? && c.table != Name(Messages)
    ensures At(CellsOf(Writes(e)), c) == Written(e, c)
  {
    TwoRows(Writes(e)[0], Writes(e)[1], c);
    NamesDiffer(Queue, Inbox);
    RowAt("conversations_by_user", [Text(e.user), Num(e.timestamp), Text(e.conv)],
          map["status" := Text("active"), "unread_count" := Num(0)], c);
    RowAt("agent_queue", [Text("default"), Num(3), Num(e.timestamp), Text(e.conv)], map["user_id" := Text(e.user)], c);
  }

  lemma ChatEndIs(e: Event, c: Cell)
    requires e.ChatEnd? && c.table != Name(Messages)
    ensures At(CellsOf(Writes(e)), c) == Written(e, c)
  {
    OneRow(Writes(e)[0], c);
    RowAt("conversations", [Text(e.conv)], map["status" := Text("ended"), "ended_at" := Num(e.timestamp)], c);
  }

  lemma AckIs(e: Event, c: Cell)
    requires e.Ack? && c.table != Name(Messages)
    ensures At(CellsOf(Writes(e)), c) == Written(e, c)
  {
    OneRow(Writes(e)[0], c);
    RowAt("message_acks", [Text(e.conv), Text(e.id), Text(e.ackType)],
          map["acked_by" := Text(Or(e.from, "")), "acked_at" := Num(e.timestamp)], c);
  }

  lemma AssignmentIs(e: Event, c: Cell)
    requires e.Assignment? && c.table != Name(Messages)
    ensures At(CellsOf(Writes(e)), c) == Written(e, c)
  {
    OneRow(Writes(e)[0], c);
    RowAt("agent_assignments", [Text(e.conv), Num(e.timestamp)],
          map["agent_id" := Text(e.agent), "assigned_by" := Text("system")], c);
  }

  lemma WrittenIs(e: Event, c: Cell)
    requires c.table != Name(Messages)
    ensures At(CellsOf(Writes(e)), c) == Written(e, c)
  {
    match e
    case Message(_, _, _, _, _, _, _, _, _) => MessageIs(e, c);
    case ChatStart(_, _, _) => ChatStartIs(e, c);
    case ChatEnd(_, _) => ChatEndIs(e, c);
    case Ack(_, _, _, _, _) => AckIs(e, c);
    case Assignment(_, _, _) => AssignmentIs(e, c);
  }

  lemma SaidBy(t: Table, row: seq<Val>, column: string, says: Says)
    requires t != Messages && forall e :: Written(e, Cell(Name(t), row, column)) == says(e)
    ensures IsSaid(Cell(Name(t), row, column), says)
  {
    var c := Cell(Name(t), row, column);
    NamesDiffer(t, Messages);
    forall e ensures At(CellsOf(Writes(e)), c) == says(e) {
      WrittenIs(e, c);
    }
  }

  /** The cell after any log from the empty database. */
  function Stored(events: seq<Event>, t: Table, row: seq<Val>, column: string): Option<Val> {
    At(PersistLog(Store(map[], map[]), LogOf(events)).cells, Cell(Name(t), row, column))
  }

  lemma StoredIsSaid(events: seq<Event>, t: Table, row: seq<Val>, column: string, says: Says)
    requires t != Messages && forall e :: Written(e, Cell(Name(t), row, column)) == says(e)
    ensures Stored(events, t, row, column) == Last(events, says)
  {
    PersistLogCells(Store(map[], map[]), LogOf(events));
    assert map[] + LogCells(LogOf(events)) == LogCells(LogOf(events));
    SaidBy(t, row, column, says);
    LastCounts(events, Cell(Name(t), row, column), says);
  }

  // ----- the conversation's own row

  function Ended(conv: string): Says {
    (e: Event) => if e.ChatEnd? && e.conv == conv then Some(Text("ended")) else None
  }

  function EndedAt(conv: string): Says {
    (e: Event) => if e.ChatEnd? && e.conv == conv then Some(Num(e.timestamp)) else None
  }

  function Messaged(conv: string): Says {
    (e: Event) => if e.Message? && e.conv == conv then Some(Num(e.timestamp)) else None
  }

  /** The first 100 characters of the text, if there is one. */
  function Preview(conv: string): Says {
    (e: Event) => if e.Message? && e.conv == conv
         then
           Some(Text(if e.text.None? then ""
                     else if |e.text.value| <= 100 then e.text.value else e.text.value[..100]))
         else None
  }

  lemma EndStored(events: seq<Event>, conv: string)
    ensures var row := [Text(conv)];
            Stored(events, Conversations, row, "status") == Last(events, Ended(conv))
  {
    var row, says := [Text(conv)], Ended(conv);
    AllNamesDiffer(Conversations);
    forall e ensures Written(e, Cell(Name(Conversations), row, "status")) == says(e) {
    }
    StoredIsSaid(events, Conversations, row, "status", says);
  }

  lemma EndTimeStored(events: seq<Event>, conv: string)
    ensures var row := [Text(conv)];
            Stored(events, Conversations, row, "ended_at") == Last(events, EndedAt(conv))
  {
    var row, says := [Text(conv)], EndedAt(conv);
    AllNamesDiffer(Conversations);
    forall e ensures Written(e, Cell(Name(Conversations), row, "ended_at")) == says(e) {
    }
    StoredIsSaid(events, Conversations, row, "ended_at", says);
  }

  lemma MessageTimeStored(events: seq<Event>, conv: string)
    ensures var row := [Text(conv)];
            Stored(events, Conversations, row, "last_message_at") == Last(events, Messaged(conv))
  {
    var row, says := [Text(conv)], Messaged(conv);
    AllNamesDiffer(Conversations);
    forall e ensures Written(e, Cell(Name(Conversations), row, "last_message_at")) == says(e) {
    }
    StoredIsSaid(events, Conversations, row, "last_message_at", says);
  }

  lemma PreviewStored(events: seq<Event>, conv: string)
    ensures var row := [Text(conv)];
            Stored(events, Conversations, row, "last_message_preview") == Last(events, Preview(conv))
  {
    var row, says := [Text(conv)], Preview(conv);
    AllNamesDiffer(Conversations);
    forall e ensures Written(e, Cell(Name(Conversations), row, "last_message_preview")) == says(e) {
    }
    StoredIsSaid(events, Conversations, row, "last_message_preview", says);
  }

  /** After any log, a conversation's row says it ended if and only if an end was logged, with the time of
      the last one, and holds the time and the first 100 characters of the last message logged. */
  lemma ConversationIsLog(events: seq<Event>, conv: string)
    ensures Stored(events, Conversations, [Text(conv)], "status") == Last(events, Ended(conv))
    ensures Stored(events, Conversations, [Text(conv)], "ended_at") == Last(events, EndedAt(conv))
    ensures Stored(events, Conversations, [Text(conv)], "last_message_at") == Last(events, Messaged(conv))
    ensures Stored(events, Conversations, [Text(conv)], "last_message_preview") == Last(events, Preview(conv))
  {
    EndStored(events, conv);
    EndTimeStored(events, conv);
    MessageTimeStored(events, conv);
    PreviewStored(events, conv);
  }

  // ----- inbox, queue, receipts, assignments

  function Started(conv: string, at: int, user: string, value: Val): Says {
    (e: Event) => if e.ChatStart? && e.conv == conv && e.timestamp == at && e.user == user then Some(value) else None
  }

  function QueuedUser(conv: string, at: int): Says {
    (e: Event) => if e.ChatStart? && e.conv == conv && e.timestamp == at then Some(Text(e.user)) else None
  }

  function AckedBy(conv: string, id: string, kind: string): Says {
    (e: Event) => if e.Ack? && e.conv == conv && e.id == id && e.ackType == kind
         then Some(Text(if e.from.Some? then e.from.value else "")) else None
  }

  function AckedAt(conv: string, id: string, kind: string): Says {
    (e: Event) => if e.Ack? && e.conv == conv && e.id == id && e.ackType == kind then Some(Num(e.timestamp)) else None
  }

  function AssignedTo(conv: string, at: int): Says {
    (e: Event) => if e.Assignment? && e.conv == conv && e.timestamp == at then Some(Text(e.agent)) else None
  }

  function AssignedBy(conv: string, at: int): Says {
    (e: Event) => if e.Assignment? && e.conv == conv && e.timestamp == at then Some(Text("system")) else None
  }

  lemma InboxStatusStored(events: seq<Event>, conv: string, at: int, user: string)
    ensures var row := [Text(user), Num(at), Text(conv)];
            Stored(events, Inbox, row, "status") == Last(events, Started(conv, at, user, Text("active")))
  {
    var row, says := [Text(user), Num(at), Text(conv)], Started(conv, at, user, Text("active"));
    AllNamesDiffer(Inbox);
    forall e ensures Written(e, Cell(Name(Inbox), row, "status")) == says(e) {
    }
    StoredIsSaid(events, Inbox, row, "status", says);
  }

  lemma InboxUnreadStored(events: seq<Event>, conv: string, at: int, user: string)
    ensures var row := [Text(user), Num(at), Text(conv)];
            Stored(events, Inbox, row, "unread_count") == Last(events, Started(conv, at, user, Num(0)))
  {
    var row, says := [Text(user), Num(at), Text(conv)], Started(conv, at, user, Num(0));
    AllNamesDiffer(Inbox);
    forall e ensures Written(e, Cell(Name(Inbox), row, "unread_count")) == says(e) {
    }
    StoredIsSaid(events, Inbox, row, "unread_count", says);
  }

  lemma QueueStored(events: seq<Event>, conv: string, at: int)
    ensures var row := [Text("default"), Num(3), Num(at), Text(conv)];
            Stored(events, Queue, row, "user_id") == Last(events, QueuedUser(conv, at))
  {
    var row, says := [Text("default"), Num(3), Num(at), Text(conv)], QueuedUser(conv, at);
    AllNamesDiffer(Queue);
    forall e ensures Written(e, Cell(Name(Queue), row, "user_id")) == says(e) {
    }
    StoredIsSaid(events, Queue, row, "user_id", says);
  }

  lemma ReceiptStored(events: seq<Event>, conv: string, id: string, kind: string)
    ensures var row := [Text(conv), Text(id), Text(kind)];
            Stored(events, Receipts, row, "acked_by") == Last(events, AckedBy(conv, id, kind))
  {
    var row, says := [Text(conv), Text(id), Text(kind)], AckedBy(conv, id, kind);
    AllNamesDiffer(Receipts);
    forall e ensures Written(e, Cell(Name(Receipts), row, "acked_by")) == says(e) {
    }
    StoredIsSaid(events, Receipts, row, "acked_by", says);
  }

  lemma ReceiptTimeStored(events: seq<Event>, conv: string, id: string, kind: string)
    ensures var row := [Text(conv), Text(id), Text(kind)];
            Stored(events, Receipts, row, "acked_at") == Last(events, AckedAt(conv, id, kind))
  {
    var row, says := [Text(conv), Text(id), Text(kind)], AckedAt(conv, id, kind);
    AllNamesDiffer(Receipts);
    forall e ensures Written(e, Cell(Name(Receipts), row, "acked_at")) == says(e) {
    }
    StoredIsSaid(events, Receipts, row, "acked_at", says);
  }

  lemma AssignmentStored(events: seq<Event>, conv: string, at: int)
    ensures var row := [Text(conv), Num(at)];
            Stored(events, Assignments, row, "agent_id") == Last(events, AssignedTo(conv, at))
  {
    var row, says := [Text(conv), Num(at)], AssignedTo(conv, at);
    AllNamesDiffer(Assignments);
    forall e ensures Written(e, Cell(Name(Assignments), row, "agent_id")) == says(e) {
    }
    StoredIsSaid(events, Assignments, row, "agent_id", says);
  }

  lemma AssignerStored(events: seq<Event>, conv: string, at: int)
    ensures var row := [Text(conv), Num(at)];
            Stored(events, Assignments, row, "assigned_by") == Last(events, AssignedBy(conv, at))
  {
    var row, says := [Text(conv), Num(at)], AssignedBy(conv, at);
    AllNamesDiffer(Assignments);
    forall e ensures Written(e, Cell(Name(Assignments), row, "assigned_by")) == says(e) {
    }
    StoredIsSaid(events, Assignments, row, "assigned_by", says);
  }

  /** After any log: a user's inbox has a started conversation as active and unread 0, the default queue
      has it at priority 3 with its user, by the time it started; and both only if it was started. */
  lemma StartIsLog(events: seq<Event>, conv: string, at: int, user: string)
    ensures Stored(events, Inbox, [Text(user), Num(at), Text(conv)], "status") ==
            Last(events, Started(conv, at, user, Text("active")))
    ensures Stored(events, Inbox, [Text(user), Num(at), Text(conv)], "unread_count") ==
            Last(events, Started(conv, at, user, Num(0)))
    ensures Stored(events, Queue, [Text("default"), Num(3), Num(at), Text(conv)], "user_id") ==
            Last(events, QueuedUser(conv, at))
  {
    InboxStatusStored(events, conv, at, user);
    InboxUnreadStored(events, conv, at, user);
    QueueStored(events, conv, at);
  }

  /** After any log: a message's receipt of each kind is by and at the last acknowledgement of that kind,
      and an assignment's row names the agent assigned last at that time. */
  lemma ReceiptIsLog(events: seq<Event>, conv: string, id: string, kind: string, at: int)
    ensures Stored(events, Receipts, [Text(conv), Text(id), Text(kind)], "acked_by") ==
            Last(events, AckedBy(conv, id, kind))
    ensures Stored(events, Receipts, [Text(conv), Text(id), Text(kind)], "acked_at") ==
            Last(events, AckedAt(conv, id, kind))
    ensures Stored(events, Assignments, [Text(conv), Num(at)], "agent_id") == Last(events, AssignedTo(conv, at))
    ensures Stored(events, Assignments, [Text(conv), Num(at)], "assigned_by") == Last(events, AssignedBy(conv, at))
  {
    ReceiptStored(events, conv, id, kind);
    ReceiptTimeStored(events, conv, id, kind);
    AssignmentStored(events, conv, at);
    AssignerStored(events, conv, at);
  }
}
