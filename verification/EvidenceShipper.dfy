/** The shipper that publishes the audit journal: complete lines after a persisted byte cursor, the
    cursor moving only once the broker has acknowledged them. */
module EvidenceShipper {
  import opened Pipelines
  import opened AuditChain

  /** What a line holds: white space only, no record that can be published, or one. */
  datatype Content = Blank | Unreadable | Readable(record: Record)

  type Parser = string -> Content

  datatype Cursor = Cursor(offset: nat, sequence: nat)

  /** A record read from the journal line that starts at a byte. */
  datatype Item = Item(start: nat, record: Record)

  // ---------- lines ----------

  /** Where the line that begins at offset ends, just after its newline. */
  function LineEnd(file: string, offset: nat): (r: Option<nat>)
    requires offset <= |file|
    ensures r.Some? ==>
      && offset < r.value <= |file| && file[r.value - 1] == '\n'
      && forall k | offset <= k < r.value - 1 :: file[k] != '\n'
    ensures r.None? ==> forall k | offset <= k < |file| :: file[k] != '\n'
    decreases |file| - offset
  {
    if offset == |file| then None
    else if file[offset] == '\n' then Some(offset + 1)
    else LineEnd(file, offset + 1)
  }

  /** A byte at which a line starts. */
  predicate Boundary(file: string, offset: nat)
  {
    offset <= |file| && (offset == 0 || file[offset - 1] == '\n')
  }

  /** A complete line starts here: it has its newline. */
  predicate Complete(file: string, start: nat)
  {
    Boundary(file, start) && LineEnd(file, start).Some?
  }

  function ContentAt(parse: Parser, file: string, start: nat): Content
    requires Complete(file, start)
  {
    parse(file[start..LineEnd(file, start).value])
  }

  predicate Holds(parse: Parser, file: string, start: nat)
  {
    Complete(file, start) && !ContentAt(parse, file, start).Blank?
  }

  predicate IsItem(parse: Parser, file: string, i: Item)
  {
    Complete(file, i.start) && ContentAt(parse, file, i.start) == Readable(i.record)
  }

  lemma NoLineSpans(file: string, start: nat, offset: nat)
    requires Complete(file, start) && Boundary(file, offset) && start < offset
    ensures LineEnd(file, start).value <= offset
  {
  }

  lemma {:induction false} AppendKeepsLineEnd(file: string, more: string, start: nat)
    requires start <= |file| && LineEnd(file, start).Some?
    ensures LineEnd(file + more, start) == LineEnd(file, start)
    decreases |file| - start
  {
    assert (file + more)[start] == file[start];
    if file[start] != '\n' {
      AppendKeepsLineEnd(file, more, start + 1);
    }
  }

  /** Appending bytes changes no complete line, and brings none before a boundary. */
  lemma AppendKeepsLine(parse: Parser, file: string, more: string, start: nat)
    requires Complete(file, start)
    ensures Complete(file + more, start) && ContentAt(parse, file + more, start) == ContentAt(parse, file, start)
  {
    AppendKeepsLineEnd(file, more, start);
    var e := LineEnd(file, start).value;
    assert (file + more)[start..e] == file[start..e];
    assert start > 0 ==> (file + more)[start - 1] == file[start - 1];
  }

  lemma LineBeforeBoundary(file: string, more: string, start: nat, offset: nat)
    requires Boundary(file, offset) && start < offset && Boundary(file + more, start)
    ensures Complete(file, start)
  {
    assert start > 0 ==> (file + more)[start - 1] == file[start - 1];
    assert file[offset - 1] == '\n';
  }

  // ---------- one batch ----------

  /** The records of at most limit lines from the cursor on, and the cursor after them; none if a
      complete line cannot be read. */
  function Collect(parse: Parser, file: string, cur: Cursor, limit: nat): (r: Option<(seq<Item>, Cursor)>)
    requires cur.offset <= |file|
    ensures r.Some? ==> |r.value.0| <= limit && cur.offset <= r.value.1.offset <= |file|
    decreases |file| - cur.offset
  {
    if limit == 0 || LineEnd(file, cur.offset).None? then Some(([], cur))
    else
      var end := LineEnd(file, cur.offset).value;
      match parse(file[cur.offset..end])
      case Blank => Collect(parse, file, cur.(offset := end), limit)
      case Unreadable => None
      case Readable(record) =>
        var rest := Collect(parse, file, Cursor(end, record.sequence), limit - 1);
        if rest.None? then None else Some(([Item(cur.offset, record)] + rest.value.0, rest.value.1))
  }

  ghost predicate StartsAt(items: seq<Item>, n: nat, start: nat)
  {
    exists a :: 0 <= a < n && a < |items| && items[a].start == start
  }

  /** The batch is exactly the non-blank complete lines from one boundary to another, in order. */
  ghost predicate BatchOf(parse: Parser, file: string, from: nat, items: seq<Item>, to: nat)
  {
    && from <= to && Boundary(file, to)
    && (forall a | 0 <= a < |items| :: IsItem(parse, file, items[a]) && from <= items[a].start < to)
    && (forall a, b | 0 <= a < b < |items| :: items[a].start < items[b].start)
    && (forall start: nat | Holds(parse, file, start) && from <= start < to :: StartsAt(items, |items|, start))
  }

  lemma BatchExtends(parse: Parser, file: string, from: nat, record: Record, rest: seq<Item>, to: nat)
    requires IsItem(parse, file, Item(from, record))
    requires BatchOf(parse, file, LineEnd(file, from).value, rest, to)
    ensures BatchOf(parse, file, from, [Item(from, record)] + rest, to)
  {
    var items := [Item(from, record)] + rest;
    forall start: nat | Holds(parse, file, start) && from <= start < to
      ensures StartsAt(items, |items|, start)
    {
      if start == from {
        assert items[0].start == start;
      } else {
        NoLineSpans(file, from, start);
        var a :| 0 <= a < |rest| && rest[a].start == start;
        assert items[a + 1].start == start;
      }
    }
  }

  lemma BlankExtends(parse: Parser, file: string, from: nat, items: seq<Item>, to: nat)
    requires Complete(file, from) && ContentAt(parse, file, from).Blank?
    requires BatchOf(parse, file, LineEnd(file, from).value, items, to)
    ensures BatchOf(parse, file, from, items, to)
  {
    forall start: nat | Holds(parse, file, start) && from <= start < to
      ensures StartsAt(items, |items|, start)
    {
      NoLineSpans(file, from, start);
    }
  }

  ghost predicate GivesBatch(parse: Parser, file: string, from: nat, r: Option<(seq<Item>, Cursor)>)
  {
    r.Some? ==> BatchOf(parse, file, from, r.value.0, r.value.1.offset)
  }

  lemma RecordBefore(parse: Parser, file: string, from: nat, record: Record, rest: Option<(seq<Item>, Cursor)>)
    requires IsItem(parse, file, Item(from, record)) && GivesBatch(parse, file, LineEnd(file, from).value, rest)
    ensures rest.Some? ==> BatchOf(parse, file, from, [Item(from, record)] + rest.value.0, rest.value.1.offset)
  {
    if rest.Some? {
      BatchExtends(parse, file, from, record, rest.value.0, rest.value.1.offset);
    }
  }

  lemma BlankBefore(parse: Parser, file: string, from: nat, rest: Option<(seq<Item>, Cursor)>)
    requires Complete(file, from) && ContentAt(parse, file, from).Blank?
    requires GivesBatch(parse, file, LineEnd(file, from).value, rest)
    ensures GivesBatch(parse, file, from, rest)
  {
    if rest.Some? {
      BlankExtends(parse, file, from, rest.value.0, rest.value.1.offset);
    }
  }

  lemma {:induction false} CollectIsBatch(parse: Parser, file: string, cur: Cursor, limit: nat)
    requires Boundary(file, cur.offset)
    ensures GivesBatch(parse, file, cur.offset, Collect(parse, file, cur, limit))
    decreases |file| - cur.offset
  {
    if limit > 0 && LineEnd(file, cur.offset).Some? {
      var end := LineEnd(file, cur.offset).value;
      match ContentAt(parse, file, cur.offset)
      case Blank =>
        CollectIsBatch(parse, file, cur.(offset := end), limit);
        BlankBefore(parse, file, cur.offset, Collect(parse, file, cur.(offset := end), limit));
      case Readable(record) =>
        var after := Cursor(end, record.sequence);
        CollectIsBatch(parse, file, after, limit - 1);
        RecordBefore(parse, file, cur.offset, record, Collect(parse, file, after, limit - 1));
      case Unreadable =>
    }
  }

  // ---------- the outbox and its runs ----------

  /** kept: which records of a batch reached the broker before the publish failed. */
  datatype ShipOutcome = PublishFailed(kept: seq<bool>) | CursorNotWritten | Shipped

  /** The journal file, the persisted cursor, what the broker received, in order, and the starts of
      the records it acknowledged. */
  datatype Outbox = Outbox(file: string, cursor: Cursor, received: seq<Item>, acked: set<nat>)

  const EMPTY_OUTBOX := Outbox("", Cursor(0, 0), [], {})

  function Kept(items: seq<Item>, kept: seq<bool>): (r: seq<Item>)
    ensures forall i <- r :: i in items
  {
    if items == [] || kept == [] then []
    else (if kept[0] then [items[0]] else []) + Kept(items[1..], kept[1..])
  }

  /** A journal shorter than the cursor was replaced: it is read from its start. */
  function StartFrom(file: string, cur: Cursor): (c: Cursor)
    ensures c.offset <= |file|
  {
    if |file| < cur.offset then Cursor(0, 0) else cur
  }

  function Starts(items: seq<Item>): set<nat>
  {
    set i | i in items :: i.start
  }

  /** One pass of ShipOnce, with what the broker and the cursor file answered. */
  function AfterShip(parse: Parser, box: Outbox, batchSize: nat, o: ShipOutcome): Outbox
  {
    var r := Collect(parse, box.file, StartFrom(box.file, box.cursor), batchSize);
    if r.None? then box
    else
      var (items, next) := r.value;
      if items == [] then
        if o.CursorNotWritten? || next.offset == StartFrom(box.file, box.cursor).offset then box
            else box.(cursor := next)
      else match o
        case PublishFailed(kept) => box.(received := box.received + Kept(items, kept))
        case CursorNotWritten => box.(received := box.received + items, acked := box.acked + Starts(items))
        case Shipped => box.(received := box.received + items, acked := box.acked + Starts(items), cursor := next)
  }

  // ---------- what a pass does, exactly ----------

  /** The records on complete lines from offset on. */
  function Outstanding(parse: Parser, file: string, offset: nat): nat
    requires offset <= |file|
    decreases |file| - offset
  {
    match LineEnd(file, offset)
    case None => 0
    case Some(end) => (if parse(file[offset..end]).Blank? then 0 else 1) + Outstanding(parse, file, end)
  }

  /** Cutting the file keeps the lines that end before the cut, and no other. */
  lemma {:induction false} LineEndOfPrefix(file: string, offset: nat, cut: nat)
    requires offset <= cut <= |file|
    ensures LineEnd(file[..cut], offset) == if LineEnd(file, offset).Some? && LineEnd(file, offset).value <= cut
        then LineEnd(file, offset) else None
    decreases |file| - offset
  {
    if offset < cut && file[offset] != '\n' {
      LineEndOfPrefix(file, offset + 1, cut);
    }
  }

  /** A complete line that cannot be read begins here, and fewer than limit records stand before it. */
  ghost predicate Torn(parse: Parser, file: string, from: nat, limit: nat, start: nat)
  {
    && Complete(file, start) && from <= start
    && ContentAt(parse, file, start).Unreadable?
    && Outstanding(parse, file[..start], from) < limit
  }

  lemma TornBehindLine(parse: Parser, file: string, from: nat, limit: nat, start: nat)
    requires Complete(file, from) && limit > 0
    ensures var end, blank := LineEnd(file, from).value, ContentAt(parse, file, from).Blank?;
      Torn(parse, file, from, limit, start)
      <==> || (start == from && ContentAt(parse, file, from).Unreadable?)
           || (blank && Torn(parse, file, end, limit, start))
           || (!blank && Torn(parse, file, end, limit - 1, start))
  {
    var end := LineEnd(file, from).value;
    if from <= start <= |file| {
      LineEndOfPrefix(file, from, start);
      if Complete(file, start) && from < start {
        NoLineSpans(file, from, start);
        assert file[..start][from..end] == file[from..end];
      }
    }
  }

  ghost predicate ComesToTorn(parse: Parser, file: string, from: nat, limit: nat)
  {
    exists start :: Torn(parse, file, from, limit, start)
  }

  lemma TornFrom(parse: Parser, file: string, from: nat, limit: nat)
    requires Complete(file, from) && limit > 0
    ensures var end := LineEnd(file, from).value;
      ComesToTorn(parse, file, from, limit) <==> match ContentAt(parse, file, from)
        case Blank => ComesToTorn(parse, file, end, limit)
        case Readable(_) => ComesToTorn(parse, file, end, limit - 1)
        case Unreadable => true
  {
    var end, blank := LineEnd(file, from).value, ContentAt(parse, file, from).Blank?;
    var rest := if blank then limit else limit - 1;
    TornBehindLine(parse, file, from, limit, from);
    if start :| Torn(parse, file, from, limit, start) {
      TornBehindLine(parse, file, from, limit, start);
    }
    if start :| Torn(parse, file, end, rest, start) {
      TornBehindLine(parse, file, from, limit, start);
    }
  }

  /** A pass reads nothing exactly when it comes to a line that cannot be read. */
  lemma {:induction false} CollectFailsExactly(parse: Parser, file: string, cur: Cursor, limit: nat)
    requires Boundary(file, cur.offset)
    ensures Collect(parse, file, cur, limit).None? <==> ComesToTorn(parse, file, cur.offset, limit)
    decreases |file| - cur.offset
  {
    if limit > 0 && LineEnd(file, cur.offset).Some? {
      var end := LineEnd(file, cur.offset).value;
      TornFrom(parse, file, cur.offset, limit);
      match ContentAt(parse, file, cur.offset)
      case Blank => CollectFailsExactly(parse, file, cur.(offset := end), limit);
      case Readable(record) => CollectFailsExactly(parse, file, Cursor(end, record.sequence), limit - 1);
      case Unreadable =>
    }
  }

  /** The batch stops at the limit, right after a record, or for want of a further line. */
  ghost predicate StopsAt(file: string, cur: Cursor, limit: nat, items: seq<Item>, next: Cursor)
    requires next.offset <= |file|
  {
    && (|items| < limit ==> LineEnd(file, next.offset).None?)
    && |items| <= limit
    && next.sequence == (if items == [] then cur.sequence else items[|items| - 1].record.sequence)
    && (|items| == limit > 0 ==> var last := items[limit - 1].start;
          last <= |file| && LineEnd(file, last) == Some(next.offset))
    && (limit == 0 ==> next == cur)
  }

  lemma {:induction false} CollectStops(parse: Parser, file: string, cur: Cursor, limit: nat)
    requires cur.offset <= |file| && Collect(parse, file, cur, limit).Some?
    ensures var (items, next) := Collect(parse, file, cur, limit).value; StopsAt(file, cur, limit, items, next)
    decreases |file| - cur.offset
  {
    if limit > 0 && LineEnd(file, cur.offset).Some? {
      var end := LineEnd(file, cur.offset).value;
      match parse(file[cur.offset..end])
      case Blank => CollectStops(parse, file, cur.(offset := end), limit);
      case Readable(record) =>
        var after := Cursor(end, record.sequence);
        CollectStops(parse, file, after, limit - 1);
        var (rest, next) := Collect(parse, file, after, limit - 1).value;
        StopsAtLater(file, cur, limit, Item(cur.offset, record), rest, after, next);
      case Unreadable =>
    }
  }

  lemma StopsAtLater(file: string, cur: Cursor, limit: nat, item: Item, rest: seq<Item>, after: Cursor, next: Cursor)
    requires limit > 0 && next.offset <= |file| && StopsAt(file, after, limit - 1, rest, next)
    requires item.start <= |file| && LineEnd(file, item.start) == Some(after.offset)
    requires after.sequence == item.record.sequence
    ensures StopsAt(file, cur, limit, [item] + rest, next)
  {
  }

  /** One pass, whatever the broker and the cursor file answer: it reads from the cursor, or from the
      start of a journal that has become shorter; it does nothing when it comes to a torn line; else it
      publishes the batch, acknowledges it unless the publish failed, and moves the cursor behind it
      only if that was written. */
  lemma ShipExactly(parse: Parser, box: Outbox, batchSize: nat, o: ShipOutcome)
      returns (from: Cursor, items: seq<Item>, next: Cursor, written: bool)
    requires |box.file| < box.cursor.offset || Boundary(box.file, box.cursor.offset)
    ensures from == if |box.file| < box.cursor.offset then Cursor(0, 0) else box.cursor
    ensures ComesToTorn(parse, box.file, from.offset, batchSize) ==> AfterShip(parse, box, batchSize, o) == box
    ensures written <==> if items == [] then !o.CursorNotWritten? && next.offset != from.offset else o.Shipped?
    ensures !ComesToTorn(parse, box.file, from.offset, batchSize) ==>
      && BatchOf(parse, box.file, from.offset, items, next.offset) && StopsAt(box.file, from, batchSize, items, next)
      && AfterShip(parse, box, batchSize, o)
      == Outbox(box.file, if written then next else box.cursor,
                box.received + (if o.PublishFailed? then Kept(items, o.kept) else items),
                box.acked + (if o.PublishFailed? then {} else Starts(items)))
  {
    from := if |box.file| < box.cursor.offset then Cursor(0, 0) else box.cursor;
    items, next := [], from;
    CollectFailsExactly(parse, box.file, from, batchSize);
    var r := Collect(parse, box.file, from, batchSize);
    if r.Some? {
      items, next := r.value.0, r.value.1;
      CollectIsBatch(parse, box.file, from, batchSize);
      CollectStops(parse, box.file, from, batchSize);
      assert box.received + [] == box.received;
      assert Starts([]) == {};
    }
    written := if items == [] then !o.CursorNotWritten? && next.offset != from.offset else o.Shipped?;
  }

  datatype Event = Append(bytes: string) | Ship(outcome: ShipOutcome)

  function After(parse: Parser, batchSize: nat, events: seq<Event>): Outbox
  {
    if events == [] then EMPTY_OUTBOX
    else
      var box := After(parse, batchSize, events[..|events| - 1]);
      match events[|events| - 1]
      case Append(bytes) => box.(file := box.file + bytes)
      case Ship(o) => AfterShip(parse, box, batchSize, o)
  }

  // ---------- nothing is lost, no torn line is sent ----------

  ghost predicate ReceivedLines(parse: Parser, file: string, received: seq<Item>)
  {
    forall i <- received :: IsItem(parse, file, i)
  }

  ghost predicate AckedReceived(received: seq<Item>, acked: set<nat>)
  {
    forall start <- acked :: StartsAt(received, |received|, start)
  }

  ghost predicate PassedAcked(parse: Parser, file: string, offset: nat, acked: set<nat>)
  {
    forall start: nat | start < offset && Holds(parse, file, start) :: start in acked
  }

  ghost predicate OutboxInv(parse: Parser, box: Outbox)
  {
    && Boundary(box.file, box.cursor.offset)
    && ReceivedLines(parse, box.file, box.received)
    && AckedReceived(box.received, box.acked)
    && PassedAcked(parse, box.file, box.cursor.offset, box.acked)
  }

  lemma AppendKeepsOutbox(parse: Parser, box: Outbox, bytes: string)
    requires OutboxInv(parse, box)
    ensures OutboxInv(parse, box.(file := box.file + bytes))
  {
    var off := box.cursor.offset;
    assert off > 0 ==> (box.file + bytes)[off - 1] == box.file[off - 1];
    forall start: nat | start < off && Holds(parse, box.file + bytes, start)
      ensures start in box.acked
    {
      LineBeforeBoundary(box.file, bytes, start, off);
      AppendKeepsLine(parse, box.file, bytes, start);
    }
    forall i <- box.received
      ensures IsItem(parse, box.file + bytes, i)
    {
      AppendKeepsLine(parse, box.file, bytes, i.start);
    }
  }

  lemma StartsAtGrows(received: seq<Item>, more: seq<Item>, start: nat)
    ensures StartsAt(received, |received|, start) ==> StartsAt(received + more, |received|, start)
    ensures StartsAt(more, |more|, start) ==> StartsAt(received + more, |received + more|, start)
  {
    var all := received + more;
    if a :| 0 <= a < |received| && received[a].start == start {
      assert all[a].start == start;
    }
    if a :| 0 <= a < |more| && more[a].start == start {
      assert all[|received| + a].start == start;
    }
  }

  lemma ReceivedGrows(received: seq<Item>, acked: set<nat>, more: seq<Item>)
    requires AckedReceived(received, acked)
    ensures AckedReceived(received + more, acked)
    ensures AckedReceived(received + more, acked + Starts(more))
  {
    forall start <- acked + Starts(more)
      ensures StartsAt(received + more, |received + more|, start)
    {
      StartsAtGrows(received, more, start);
      if start in Starts(more) {
        var i :| i in more && i.start == start;
        var a :| 0 <= a < |more| && more[a] == i;
        assert StartsAt(more, |more|, start);
      }
    }
  }

  /** Every record the next cursor passes was acknowledged, before or in this batch. */
  lemma BatchIsPassed(parse: Parser, box: Outbox, items: seq<Item>, next: nat)
    requires OutboxInv(parse, box) && BatchOf(parse, box.file, box.cursor.offset, items, next)
    ensures PassedAcked(parse, box.file, next, box.acked + Starts(items))
  {
    forall start: nat | start < next && Holds(parse, box.file, start)
      ensures start in box.acked + Starts(items)
    {
      if box.cursor.offset <= start {
        var a :| 0 <= a < |items| && items[a].start == start;
        assert items[a] in items;
      }
    }
  }

  lemma ShipKeepsOutbox(parse: Parser, box: Outbox, batchSize: nat, o: ShipOutcome)
    requires OutboxInv(parse, box)
    ensures OutboxInv(parse, AfterShip(parse, box, batchSize, o))
  {
    var r := Collect(parse, box.file, box.cursor, batchSize);
    if r.Some? {
      var (items, next) := r.value;
      CollectIsBatch(parse, box.file, box.cursor, batchSize);
      BatchIsPassed(parse, box, items, next.offset);
      ReceivedGrows(box.received, box.acked, items);
      if o.PublishFailed? {
        ReceivedGrows(box.received, box.acked, Kept(items, o.kept));
      }
    }
  }

  /** After any interleaving of appends and passes, failed, partial or crashed, the cursor stands on
      a line boundary, every record before it was acknowledged, so received, and everything received
      is a complete line of the journal. */
  lemma {:induction false} NothingLostNothingTorn(parse: Parser, batchSize: nat, events: seq<Event>)
    ensures OutboxInv(parse, After(parse, batchSize, events))
  {
    if events != [] {
      var before := events[..|events| - 1];
      NothingLostNothingTorn(parse, batchSize, before);
      var box := After(parse, batchSize, before);
      match events[|events| - 1]
      case Append(bytes) => AppendKeepsOutbox(parse, box, bytes);
      case Ship(o) => ShipKeepsOutbox(parse, box, batchSize, o);
    }
  }

  // ---------- first deliveries of a trace are in journal order ----------

  /** The partition key of a record: its trace, or, without one, its own digest. */
  function Key(digest: string -> string, r: Record): string
  {
    if r.event.traceID != "" then r.event.traceID else digest(r.hash)
  }

  /** A failed publish delivered, for each key, at most a prefix of the batch. */
  ghost predicate KeyPrefix(digest: string -> string, items: seq<Item>, kept: seq<bool>)
  {
    forall a, b | 0 <= a < b < |items| && b < |kept| && kept[b] &&
        Key(digest, items[a].record) == Key(digest, items[b].record) :: kept[a]
  }

  /** Every record of the k-th one's key that precedes it in the journal was received before it. */
  ghost predicate InOrderAt(parse: Parser, digest: string -> string, file: string, received: seq<Item>, k: nat)
    requires k < |received|
  {
    forall i | IsItem(parse, file, i) && i.start < received[k].start &&
        Key(digest, i.record) == Key(digest, received[k].record) ::
      StartsAt(received, k, i.start)
  }

  ghost predicate InKeyOrder(parse: Parser, digest: string -> string, file: string, received: seq<Item>)
  {
    forall k: nat | k < |received| :: InOrderAt(parse, digest, file, received, k)
  }

  /** Where the k-th kept item was in the batch; what precedes it there, per key, was kept before. */
  lemma {:induction false} KeptPosition(digest: string -> string, items: seq<Item>, kept: seq<bool>, k: nat)
      returns (b: nat)
    requires KeyPrefix(digest, items, kept) && k < |Kept(items, kept)|
    ensures b < |items| && b < |kept| && kept[b] && Kept(items, kept)[k] == items[b]
    ensures forall a | 0 <= a < b && Key(digest, items[a].record) == Key(digest, items[b].record) ::
      StartsAt(Kept(items, kept), k, items[a].start)
  {
    var here := if kept[0] then 1 else 0;
    if kept[0] && k == 0 {
      b := 0;
    } else {
      forall a, c | 0 <= a < c < |items[1..]| && c < |kept[1..]| && kept[1..][c] &&
          Key(digest, items[1..][a].record) == Key(digest, items[1..][c].record)
        ensures kept[1..][a]
      {
        assert items[a + 1] == items[1..][a] && items[c + 1] == items[1..][c];
      }
      var c := KeptPosition(digest, items[1..], kept[1..], k - here);
      b := c + 1;
      forall a | 0 <= a < b && Key(digest, items[a].record) == Key(digest, items[b].record)
        ensures StartsAt(Kept(items, kept), k, items[a].start)
      {
        if a == 0 {
          assert kept[0] && Kept(items, kept)[0] == items[0];
        } else {
          assert items[a] == items[1..][a - 1] && items[b] == items[1..][c];
          StartsAtShifts(if kept[0] then [items[0]] else [], Kept(items[1..], kept[1..]), k - here, items[a].start);
        }
      }
    }
  }

  ghost predicate OrderInv(parse: Parser, digest: string -> string, box: Outbox)
  {
    OutboxInv(parse, box) && InKeyOrder(parse, digest, box.file, box.received)
  }

  lemma StartsAtShifts(received: seq<Item>, more: seq<Item>, k: nat, start: nat)
    requires StartsAt(more, k, start)
    ensures StartsAt(received + more, |received| + k, start)
  {
    var a :| 0 <= a < k && a < |more| && more[a].start == start;
    assert (received + more)[|received| + a].start == start;
  }

  lemma StartsAtEarlier(received: seq<Item>, more: seq<Item>, k: nat, n: nat, start: nat)
    requires StartsAt(received, k, start) && k <= n
    ensures StartsAt(received + more, n, start)
  {
    var a :| 0 <= a < k && a < |received| && received[a].start == start;
    assert (received + more)[a].start == start;
  }

  /** A line of the batch's range that holds this record is the batch's item of that line. */
  lemma ItemOfBatch(parse: Parser, file: string, from: nat, items: seq<Item>, to: nat, i: Item, b: nat) returns (a: nat)
    requires BatchOf(parse, file, from, items, to) && b < |items|
    requires IsItem(parse, file, i) && from <= i.start < items[b].start
    ensures a < b && items[a] == i
  {
    assert Holds(parse, file, i.start) && items[b].start < to;
    var c :| 0 <= c < |items| && items[c].start == i.start;
    assert IsItem(parse, file, items[c]);
    a := c;
  }

  lemma NewItemInOrder(parse: Parser, digest: string -> string, box: Outbox, items: seq<Item>, next: nat,
      kept: seq<bool>, k: nat, i: Item)
    requires OutboxInv(parse, box) && BatchOf(parse, box.file, box.cursor.offset, items, next)
    requires KeyPrefix(digest, items, kept) && k < |Kept(items, kept)|
    requires IsItem(parse, box.file, i) && i.start < Kept(items, kept)[k].start
    requires Key(digest, i.record) == Key(digest, Kept(items, kept)[k].record)
    ensures StartsAt(box.received + Kept(items, kept), |box.received| + k, i.start)
  {
    if i.start < box.cursor.offset {
      assert i.start in box.acked;
      StartsAtEarlier(box.received, Kept(items, kept), |box.received|, |box.received| + k, i.start);
    } else {
      var b := KeptPosition(digest, items, kept, k);
      var a := ItemOfBatch(parse, box.file, box.cursor.offset, items, next, i, b);
      StartsAtShifts(box.received, Kept(items, kept), k, i.start);
    }
  }

  lemma EarlierItemInOrder(parse: Parser, digest: string -> string, file: string, received: seq<Item>,
      more: seq<Item>, k: nat)
    requires k < |received| && InOrderAt(parse, digest, file, received, k)
    ensures InOrderAt(parse, digest, file, received + more, k)
  {
    var all := received + more;
    assert all[k] == received[k];
    forall i | IsItem(parse, file, i) && i.start < all[k].start && Key(digest, i.record) == Key(digest, all[k].record)
      ensures StartsAt(all, k, i.start)
    {
      StartsAtEarlier(received, more, k, k, i.start);
    }
  }

  lemma JoinedInOrder(parse: Parser, digest: string -> string, file: string, received: seq<Item>, more: seq<Item>)
    requires InKeyOrder(parse, digest, file, received)
    requires forall k | |received| <= k < |received + more| :: InOrderAt(parse, digest, file, received + more, k)
    ensures InKeyOrder(parse, digest, file, received + more)
  {
    forall k: nat | k < |received + more|
      ensures InOrderAt(parse, digest, file, received + more, k)
    {
      if k < |received| {
        EarlierItemInOrder(parse, digest, file, received, more, k);
      }
    }
  }

  lemma LaterItemInOrder(parse: Parser, digest: string -> string, box: Outbox, items: seq<Item>, next: nat,
      kept: seq<bool>, k: nat)
    requires OutboxInv(parse, box) && BatchOf(parse, box.file, box.cursor.offset, items, next)
    requires KeyPrefix(digest, items, kept) && k < |Kept(items, kept)|
    ensures InOrderAt(parse, digest, box.file, box.received + Kept(items, kept), |box.received| + k)
  {
    var all := box.received + Kept(items, kept);
    assert all[|box.received| + k] == Kept(items, kept)[k];
    forall i | IsItem(parse, box.file, i) && i.start < all[|box.received| + k].start &&
        Key(digest, i.record) == Key(digest, all[|box.received| + k].record)
      ensures StartsAt(all, |box.received| + k, i.start)
    {
      NewItemInOrder(parse, digest, box, items, next, kept, k, i);
    }
  }

  /** Everything published in one pass, wholly or up to a prefix of each key, extends the order. */
  lemma BatchKeepsKeyOrder(parse: Parser, digest: string -> string, box: Outbox, items: seq<Item>, next: nat,
      kept: seq<bool>)
    requires OrderInv(parse, digest, box) && BatchOf(parse, box.file, box.cursor.offset, items, next)
    requires KeyPrefix(digest, items, kept)
    ensures InKeyOrder(parse, digest, box.file, box.received + Kept(items, kept))
  {
    var more := Kept(items, kept);
    forall k | |box.received| <= k < |box.received + more|
      ensures InOrderAt(parse, digest, box.file, box.received + more, k)
    {
      LaterItemInOrder(parse, digest, box, items, next, kept, k - |box.received|);
    }
    JoinedInOrder(parse, digest, box.file, box.received, more);
  }

  function AllKept(n: nat): seq<bool>
  {
    seq(n, _ => true)
  }

  lemma {:induction false} KeepingAll(items: seq<Item>)
    ensures Kept(items, AllKept(|items|)) == items
  {
    if items != [] {
      assert AllKept(|items|)[1..] == AllKept(|items[1..]|);
      KeepingAll(items[1..]);
    }
  }

  /** Each failed publish of the run delivered at most a prefix per key. */
  ghost predicate PrefixFailures(parse: Parser, digest: string -> string, batchSize: nat, events: seq<Event>)
  {
    events != [] ==>
      var before := events[..|events| - 1];
      && PrefixFailures(parse, digest, batchSize, before)
      && match events[|events| - 1]
         case Append(_) => true
         case Ship(o) =>
           var box := After(parse, batchSize, before);
           var r := Collect(parse, box.file, StartFrom(box.file, box.cursor), batchSize);
           o.PublishFailed? && r.Some? ==> KeyPrefix(digest, r.value.0, o.kept)
  }

  lemma AppendKeepsKeyOrder(parse: Parser, digest: string -> string, box: Outbox, bytes: string)
    requires OrderInv(parse, digest, box)
    ensures OrderInv(parse, digest, box.(file := box.file + bytes))
  {
    AppendKeepsOutbox(parse, box, bytes);
    var file' := box.file + bytes;
    forall k: nat, i | k < |box.received| && IsItem(parse, file', i) && i.start < box.received[k].start
                       && Key(digest, i.record) == Key(digest, box.received[k].record)
      ensures StartsAt(box.received, k, i.start)
    {
      assert box.received[k] in box.received;
      LineBeforeBoundary(box.file, bytes, i.start, box.received[k].start);
      AppendKeepsLine(parse, box.file, bytes, i.start);
      assert InOrderAt(parse, digest, box.file, box.received, k);
      assert IsItem(parse, box.file, i);
    }
  }

  lemma ShipKeepsKeyOrder(parse: Parser, digest: string -> string, box: Outbox, batchSize: nat, o: ShipOutcome)
    requires OrderInv(parse, digest, box)
    requires var r := Collect(parse, box.file, StartFrom(box.file, box.cursor), batchSize);
      o.PublishFailed? && r.Some? ==> KeyPrefix(digest, r.value.0, o.kept)
    ensures OrderInv(parse, digest, AfterShip(parse, box, batchSize, o))
  {
    ShipKeepsOutbox(parse, box, batchSize, o);
    CollectIsBatch(parse, box.file, box.cursor, batchSize);
    var r := Collect(parse, box.file, box.cursor, batchSize);
    if r.Some? {
      var (items, next) := r.value;
      if o.PublishFailed? {
        BatchKeepsKeyOrder(parse, digest, box, items, next.offset, o.kept);
      } else {
        KeepingAll(items);
        BatchKeepsKeyOrder(parse, digest, box, items, next.offset, AllKept(|items|));
      }
    }
  }

  /** First deliveries of each key follow the journal: no record reaches the broker before every
      earlier record of its trace has. */
  lemma {:induction false} TracesArriveInOrder(parse: Parser, digest: string -> string, batchSize: nat,
      events: seq<Event>)
    requires PrefixFailures(parse, digest, batchSize, events)
    ensures OrderInv(parse, digest, After(parse, batchSize, events))
  {
    if events != [] {
      var before := events[..|events| - 1];
      TracesArriveInOrder(parse, digest, batchSize, before);
      var box := After(parse, batchSize, before);
      match events[|events| - 1]
      case Append(bytes) => AppendKeepsKeyOrder(parse, digest, box, bytes);
      case Ship(o) => ShipKeepsKeyOrder(parse, digest, box, batchSize, o);
    }
  }

  // ---------- draining ----------

  ghost predicate AllReadable(parse: Parser, file: string)
  {
    forall start: nat | Complete(file, start) :: !ContentAt(parse, file, start).Unreadable?
  }

  function Least(a: nat, b: nat): nat
  {
    if a < b then a else b
  }

  /** A batch takes the smaller of the limit and what is outstanding, and leaves the rest. */
  lemma {:induction false} CollectTakes(parse: Parser, file: string, cur: Cursor, limit: nat)
    requires Boundary(file, cur.offset) && AllReadable(parse, file)
    ensures var r := Collect(parse, file, cur, limit);
      && r.Some? && Boundary(file, r.value.1.offset)
      && |r.value.0| == Least(Outstanding(parse, file, cur.offset), limit)
      && Outstanding(parse, file, r.value.1.offset) == Outstanding(parse, file, cur.offset) - |r.value.0|
    decreases |file| - cur.offset
  {
    if limit > 0 && LineEnd(file, cur.offset).Some? {
      var end := LineEnd(file, cur.offset).value;
      assert Boundary(file, end);
      match ContentAt(parse, file, cur.offset)
      case Blank =>
        CollectTakes(parse, file, cur.(offset := end), limit);
      case Readable(record) =>
        CollectTakes(parse, file, Cursor(end, record.sequence), limit - 1);
        assert Outstanding(parse, file, cur.offset) == 1 + Outstanding(parse, file, end);
      case Unreadable =>
    }
  }

  function ShipTimes(parse: Parser, box: Outbox, batchSize: nat, passes: nat): Outbox
  {
    if passes == 0 then box else AfterShip(parse, ShipTimes(parse, box, batchSize, passes - 1), batchSize, Shipped)
  }

  function Left(n: nat, taken: nat): nat
  {
    if taken <= n then n - taken else 0
  }

  /** How many records so many full batches hold. */
  function Covered(passes: nat, batchSize: nat): nat
  {
    if passes == 0 then 0 else Covered(passes - 1, batchSize) + batchSize
  }

  lemma OnePassDrains(parse: Parser, box: Outbox, batchSize: nat)
    requires Boundary(box.file, box.cursor.offset) && AllReadable(parse, box.file)
    ensures var box' := AfterShip(parse, box, batchSize, Shipped);
      && box'.file == box.file && Boundary(box'.file, box'.cursor.offset)
      && Outstanding(parse, box'.file, box'.cursor.offset) == Left(Outstanding(parse, box.file, box.cursor.offset),
          batchSize)
  {
    CollectTakes(parse, box.file, box.cursor, batchSize);
  }

  /** Successful passes leave what as many full batches do not cover. */
  lemma {:induction false} PassesDrain(parse: Parser, box: Outbox, batchSize: nat, passes: nat)
    requires Boundary(box.file, box.cursor.offset) && AllReadable(parse, box.file)
    ensures var box' := ShipTimes(parse, box, batchSize, passes);
      && box'.file == box.file && Boundary(box'.file, box'.cursor.offset)
      && Outstanding(parse, box'.file, box'.cursor.offset) == Left(Outstanding(parse, box.file, box.cursor.offset),
          Covered(passes, batchSize))
  {
    if passes > 0 {
      PassesDrain(parse, box, batchSize, passes - 1);
      OnePassDrains(parse, ShipTimes(parse, box, batchSize, passes - 1), batchSize);
    }
  }

  function CeilDiv(n: nat, b: nat): nat
    requires b > 0
  {
    (n + b - 1) / b
  }

  lemma {:induction false} CoveredIsProduct(k: nat, b: nat)
    ensures Covered(k, b) == k * b
  {
    if k > 0 {
      CoveredIsProduct(k - 1, b);
      assert k * b == (k - 1) * b + b;
    }
  }

  lemma CeilIsLeast(n: nat, b: nat, k: nat)
    requires b > 0
    ensures Covered(k, b) >= n <==> k >= CeilDiv(n, b)
  {
    CoveredIsProduct(k, b);
    var q := CeilDiv(n, b);
    assert q * b <= n + b - 1 < q * b + b;
    if k >= q {
      assert k * b >= q * b;
    } else {
      assert (k + 1) * b <= q * b;
    }
  }

  /** n outstanding records drain in ceil(n / batchSize) successful passes, and in no fewer. */
  lemma DrainsInCeilPasses(parse: Parser, box: Outbox, batchSize: nat, passes: nat)
    requires batchSize > 0 && Boundary(box.file, box.cursor.offset) && AllReadable(parse, box.file)
    ensures var box' := ShipTimes(parse, box, batchSize, passes);
      && box'.file == box.file && box'.cursor.offset <= |box'.file|
      && (Outstanding(parse, box'.file, box'.cursor.offset) == 0
          <==> passes >= CeilDiv(Outstanding(parse, box.file, box.cursor.offset), batchSize))
  {
    PassesDrain(parse, box, batchSize, passes);
    CeilIsLeast(Outstanding(parse, box.file, box.cursor.offset), batchSize, passes);
  }

  // ---------- the cursor's sequence ----------

  /** The records before a byte of the file. */
  function RecordsBefore(parse: Parser, file: string, offset: nat): nat
    requires offset <= |file|
  {
    Outstanding(parse, file[..offset], 0)
  }

  /** The records count up from one, line after line. */
  ghost predicate CountsUp(parse: Parser, file: string)
  {
    forall i | IsItem(parse, file, i) :: i.record.sequence == RecordsBefore(parse, file, i.start) + 1
  }

  /** The complete lines from offset on, as verifying the journal reads them. */
  function LinesFrom(parse: Parser, file: string, offset: nat): seq<Line>
    requires offset <= |file|
    decreases |file| - offset
  {
    match LineEnd(file, offset)
    case None => []
    case Some(end) =>
      var content := parse(file[offset..end]);
      [if content.Readable? then Good(content.record) else Bad] + LinesFrom(parse, file, end)
  }

  /** The complete lines of the file are a chain that Verify accepts. */
  ghost predicate IsChain(hash: HashFunction, parse: Parser, file: string)
  {
    AcceptedLines(hash, LinesFrom(parse, file, 0))
  }

  /** A line's position among the lines is the number of records before it. */
  lemma {:induction false} LinePosition(parse: Parser, file: string, from: nat, start: nat)
    requires Complete(file, start) && Boundary(file, from) && from <= start
    requires forall l <- LinesFrom(parse, file, from) :: l.Good?
    ensures var k := Outstanding(parse, file[..start], from);
      && k < |LinesFrom(parse, file, from)|
      && ContentAt(parse, file, start) == Readable(LinesFrom(parse, file, from)[k].record)
    decreases start - from
  {
    LineEndOfPrefix(file, from, start);
    var lines := LinesFrom(parse, file, from);
    if from < start {
      assert file[start - 1] == '\n';
      var e := LineEnd(file, from).value;
      assert file[..start][from..e] == file[from..e];
      assert lines == [lines[0]] + LinesFrom(parse, file, e);
      assert lines[0] in lines && forall l <- LinesFrom(parse, file, e) :: l in lines;
      LinePosition(parse, file, e, start);
    } else {
      assert lines[0] in lines;
    }
  }

  /** An accepted chain counts up. */
  lemma ChainCountsUp(hash: HashFunction, parse: Parser, file: string)
    requires IsChain(hash, parse, file)
    ensures CountsUp(parse, file)
  {
    forall i | IsItem(parse, file, i)
      ensures i.record.sequence == RecordsBefore(parse, file, i.start) + 1
    {
      LinePosition(parse, file, 0, i.start);
      assert Links(hash, Records(LinesFrom(parse, file, 0)), RecordsBefore(parse, file, i.start));
    }
  }

  /** One more complete line adds its record to the count. */
  lemma {:induction false} OneMoreLine(parse: Parser, file: string, from: nat, start: nat)
    requires Complete(file, start) && Boundary(file, from) && from <= start
    ensures Outstanding(parse, file[..LineEnd(file, start).value], from)
         == Outstanding(parse, file[..start], from) + if ContentAt(parse, file, start).Blank? then 0 else 1
    decreases start - from
  {
    var end := LineEnd(file, start).value;
    LineEndOfPrefix(file, from, start);
    LineEndOfPrefix(file, from, end);
    if from == start {
      assert file[..end][start..end] == file[start..end];
      assert LineEnd(file[..end], end).None?;
    } else {
      assert file[start - 1] == '\n';
      var e := LineEnd(file, from).value;
      assert file[..start][from..e] == file[from..e] == file[..end][from..e];
      OneMoreLine(parse, file, e, start);
    }
  }

  /** On a valid chain the cursor moves on with the number of records before its offset. */
  lemma {:induction false} CollectCounts(parse: Parser, file: string, cur: Cursor, limit: nat)
    requires Boundary(file, cur.offset) && CountsUp(parse, file)
    requires cur.sequence == RecordsBefore(parse, file, cur.offset)
    ensures var r := Collect(parse, file, cur, limit);
      r.Some? ==> r.value.1.sequence == RecordsBefore(parse, file, r.value.1.offset)
    decreases |file| - cur.offset
  {
    if limit > 0 && LineEnd(file, cur.offset).Some? {
      var end := LineEnd(file, cur.offset).value;
      OneMoreLine(parse, file, 0, cur.offset);
      match ContentAt(parse, file, cur.offset)
      case Blank =>
        CollectCounts(parse, file, cur.(offset := end), limit);
      case Readable(record) =>
        assert IsItem(parse, file, Item(cur.offset, record));
        CollectCounts(parse, file, Cursor(end, record.sequence), limit - 1);
      case Unreadable =>
    }
  }

  /** The journal was a chain that Verify accepts at every moment of the run. */
  ghost predicate AlwaysChain(hash: HashFunction, parse: Parser, batchSize: nat, events: seq<Event>)
  {
    && IsChain(hash, parse, After(parse, batchSize, events).file)
    && (events != [] ==> AlwaysChain(hash, parse, batchSize, events[..|events| - 1]))
  }

  /** On such a journal the persisted sequence is the number of records before the persisted offset. */
  lemma {:induction false} CursorCountsRecords(hash: HashFunction, parse: Parser, batchSize: nat, events: seq<Event>)
    requires AlwaysChain(hash, parse, batchSize, events)
    ensures var box := After(parse, batchSize, events);
      box.cursor.offset <= |box.file| && box.cursor.sequence == RecordsBefore(parse, box.file, box.cursor.offset)
  {
    NothingLostNothingTorn(parse, batchSize, events);
    if events != [] {
      var before := events[..|events| - 1];
      CursorCountsRecords(hash, parse, batchSize, before);
      NothingLostNothingTorn(parse, batchSize, before);
      var box := After(parse, batchSize, before);
      match events[|events| - 1]
      case Append(bytes) =>
        assert (box.file + bytes)[..box.cursor.offset] == box.file[..box.cursor.offset];
      case Ship(o) =>
        ChainCountsUp(hash, parse, box.file);
        CollectCounts(parse, box.file, box.cursor, batchSize);
    }
  }

  // ---------- the shipper ----------

  /** The whole batch is what was read so far and the rest of it. */
  ghost predicate Extends(read: seq<Item>, rest: Option<(seq<Item>, Cursor)>, all: Option<(seq<Item>, Cursor)>)
  {
    && (all.Some? <==> rest.Some?)
    && (all.Some? ==> all.value.0 == read + rest.value.0 && all.value.1 == rest.value.1)
  }

  lemma ExtendsByOne(read: seq<Item>, item: Item, rest: Option<(seq<Item>, Cursor)>, all: Option<(seq<Item>, Cursor)>)
    requires Extends(read, if rest.None? then None else Some(([item] + rest.value.0, rest.value.1)), all)
    ensures Extends(read + [item], rest, all)
  {
    assert rest.Some? ==> read + ([item] + rest.value.0) == read + [item] + rest.value.0;
  }

  class KafkaShipper {
    const parse: Parser
    const batchSize: nat
    var cursor: Cursor

    constructor (parse: Parser, batchSize: nat)
      ensures this.parse == parse && this.batchSize == batchSize && cursor == Cursor(0, 0)
    {
      this.parse, this.batchSize, cursor := parse, batchSize, Cursor(0, 0);
    }

    /** Reads complete lines from the cursor until the batch is full or the file is at its end. */
    method ReadBatch(file: string, cur: Cursor) returns (ok: bool, records: seq<Item>, next: Cursor)
      requires cur.offset <= |file|
      ensures ok <==> Collect(parse, file, cur, batchSize).Some?
      ensures ok ==> (records, next) == Collect(parse, file, cur, batchSize).value
    {
      records, next := [], cur;
      ghost var all := Collect(parse, file, cur, batchSize);
      while |records| < batchSize
        invariant |records| <= batchSize && next.offset <= |file|
        invariant Extends(records, Collect(parse, file, next, batchSize - |records|), all)
        decreases |file| - next.offset
      {
        var end := LineEnd(file, next.offset);
        if end.None? {
          break;
        }
        match parse(file[next.offset..end.value])
        case Blank =>
          next := next.(offset := end.value);
        case Unreadable =>
          return false, [], cur;
        case Readable(record) =>
          ExtendsByOne(records, Item(next.offset, record),
              Collect(parse, file, Cursor(end.value, record.sequence), batchSize - |records| - 1), all);
          records := records + [Item(next.offset, record)];
          next := Cursor(end.value, record.sequence);
      }
      assert records + [] == records;
      ok := true;
    }

    /** ShipOnce: how many records were acknowledged, and what the broker received meanwhile. */
    method ShipOnce(file: string, o: ShipOutcome) returns (sent: nat, received: seq<Item>)
      modifies this`cursor
      ensures forall box: Outbox | box.file == file && box.cursor == old(cursor) ::
        var box' := AfterShip(parse, box, batchSize, o);
        && cursor == box'.cursor && box'.received == box.received + received
        && box'.acked == box.acked + if sent > 0 then Starts(received) else {}
      ensures sent > 0 ==> sent == |received|
    {
      var cur := cursor;
      if |file| < cur.offset {
        cur := Cursor(0, 0);
      }
      var ok, records, next := ReadBatch(file, cur);
      if !ok {
        return 0, [];
      }
      if records == [] {
        if next.offset != cur.offset && !o.CursorNotWritten? {
          cursor := next;
        }
        return 0, [];
      }
      if o.PublishFailed? {
        return 0, Kept(records, o.kept);
      }
      if o.Shipped? {
        cursor := next;
      }
      return |records|, records;
    }
  }
}
