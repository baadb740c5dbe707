/** The hash-chained audit journal: verification, appending, failures and reopening. */
module AuditChain {
  import opened Pipelines
  import opened JsonValues

  datatype Event = Event(traceID: string, pipeline: string, phase: string, details: Fields)

  datatype Record = Record(sequence: nat, previous: string, event: Event, hash: string)

  /** hashRecord: what commits to a record. */
  type HashFunction = (nat, string, Event) -> string

  ghost predicate Injective(hash: HashFunction)
  {
    forall s, p, e, s', p', e' :: hash(s, p, e) == hash(s', p', e') ==> s == s' && p == p' && e == e'
  }

  /** One line of the file, as reading it gives: a record, or text that is none. */
  datatype Line = Good(record: Record) | Bad

  /** The file: its terminated lines, and what follows the last newline. */
  datatype File = File(lines: seq<Line>, tail: Option<Line>)

  /** The lines a scanner yields: an unterminated one is a line too. */
  function Scanned(f: File): seq<Line>
  {
    f.lines + if f.tail.Some? then [f.tail.value] else []
  }

  // ---------- accepted journals ----------

  function Head(records: seq<Record>): string
  {
    if records == [] then "" else records[|records| - 1].hash
  }

  predicate Links(hash: HashFunction, records: seq<Record>, i: nat)
    requires i < |records|
  {
    var r := records[i];
    && r.sequence == i + 1
    && r.previous == (if i == 0 then "" else records[i - 1].hash)
    && r.hash == hash(r.sequence, r.previous, r.event)
  }

  ghost predicate Accepted(hash: HashFunction, records: seq<Record>)
  {
    forall i: nat | i < |records| :: Links(hash, records, i)
  }

  function Records(lines: seq<Line>): (records: seq<Record>)
    requires forall l <- lines :: l.Good?
    ensures |records| == |lines|
    ensures forall i | 0 <= i < |lines| :: records[i] == lines[i].record
  {
    seq(|lines|, i requires 0 <= i < |lines| => lines[i].record)
  }

  /** The lines that Verify gets through: all records, all linked. */
  ghost predicate AcceptedLines(hash: HashFunction, lines: seq<Line>)
  {
    (forall l <- lines :: l.Good?) && Accepted(hash, Records(lines))
  }

  lemma PrefixLinesAccepted(hash: HashFunction, lines: seq<Line>, n: nat)
    requires n <= |lines|
    ensures AcceptedLines(hash, lines) ==> AcceptedLines(hash, lines[..n])
  {
    if AcceptedLines(hash, lines) {
      forall i: nat | i < n
        ensures Links(hash, Records(lines[..n]), i)
      {
        assert Links(hash, Records(lines), i);
      }
    }
  }

  /** One line more is accepted exactly when it is a record that links to the head before it. */
  lemma OneLineMore(hash: HashFunction, lines: seq<Line>, n: nat)
    requires n < |lines| && AcceptedLines(hash, lines[..n])
    ensures lines[n].Bad? ==> !AcceptedLines(hash, lines[..n + 1])
    ensures lines[n].Good? ==>
      var r := lines[n].record;
      && (AcceptedLines(hash, lines[..n + 1]) <==>
            r.sequence == n + 1 && r.previous == Head(Records(lines[..n]))
            && r.hash == hash(r.sequence, r.previous, r.event))
      && (forall l <- lines[..n + 1] :: l.Good?) && Head(Records(lines[..n + 1])) == r.hash
  {
    var longer := lines[..n + 1];
    assert longer == lines[..n] + [lines[n]];
    assert longer[n] == lines[n];
    if lines[n].Good? {
      var r := lines[n].record;
      assert Records(longer)[..n] == Records(lines[..n]);
      assert Links(hash, Records(longer), n) <==>
        r.sequence == n + 1 && r.previous == Head(Records(lines[..n]))
        && r.hash == hash(r.sequence, r.previous, r.event);
      forall i: nat | i < n
        ensures Links(hash, Records(longer), i)
      {
        assert Links(hash, Records(lines[..n]), i);
      }
    }
  }

  datatype Verification = Verification(valid: bool, records: nat, headHash: string, brokenLine: nat)

  /** Verify: accepts exactly the chains; otherwise it names the first line that breaks, with the
      length and head of the chain before it. */
  method Verify(hash: HashFunction, lines: seq<Line>) returns (result: Verification)
    ensures result.valid <==> AcceptedLines(hash, lines)
    ensures result.records <= |lines| && AcceptedLines(hash, lines[..result.records])
    ensures result.headHash == Head(Records(lines[..result.records]))
    ensures result.valid ==> result.records == |lines| && result.brokenLine == 0
    ensures !result.valid ==>
      && result.brokenLine == result.records + 1 <= |lines|
      && !AcceptedLines(hash, lines[..result.brokenLine])
  {
    result := Verification(true, 0, "", 0);
    var previous := "";
    for line := 0 to |lines|
      invariant result == Verification(true, line, previous, 0)
      invariant AcceptedLines(hash, lines[..line]) && previous == Head(Records(lines[..line]))
    {
      OneLineMore(hash, lines, line);
      PrefixLinesAccepted(hash, lines, line + 1);
      if lines[line].Bad? {
        return Verification(false, result.records, result.headHash, line + 1);
      }
      var record := lines[line].record;
      if record.sequence != result.records + 1 || record.previous != previous {
        return Verification(false, result.records, result.headHash, line + 1);
      }
      if record.hash != hash(record.sequence, record.previous, record.event) {
        return Verification(false, result.records, result.headHash, line + 1);
      }
      previous := record.hash;
      result := Verification(true, result.records + 1, record.hash, 0);
    }
    assert lines[..|lines|] == lines;
  }

  lemma PrefixAccepted(hash: HashFunction, records: seq<Record>, n: nat)
    requires Accepted(hash, records) && n <= |records|
    ensures Accepted(hash, records[..n])
  {
    forall i: nat | i < n
      ensures Links(hash, records[..n], i)
    {
      assert Links(hash, records, i);
    }
  }

  lemma {:induction false} SameLengthAndHead(hash: HashFunction, a: seq<Record>, b: seq<Record>)
    requires Injective(hash) && Accepted(hash, a) && Accepted(hash, b)
    requires |a| == |b| && Head(a) == Head(b)
    ensures a == b
  {
    if a != [] {
      var last := |a| - 1;
      assert Links(hash, a, last) && Links(hash, b, last);
      PrefixAccepted(hash, a, last);
      PrefixAccepted(hash, b, last);
      SameLengthAndHead(hash, a[..last], b[..last]);
      assert a == a[..last] + [a[last]] && b == b[..last] + [b[last]];
    }
  }

  /** Two accepted journals with the same non-empty head hash are identical: an edit, removal,
      insertion or reordering is rejected or changes the head. */
  lemma HeadDeterminesJournal(hash: HashFunction, a: seq<Record>, b: seq<Record>)
    requires Injective(hash) && Accepted(hash, a) && Accepted(hash, b)
    requires Head(a) == Head(b) != ""
    ensures a == b
  {
    assert Links(hash, a, |a| - 1) && Links(hash, b, |b| - 1);
    SameLengthAndHead(hash, a, b);
  }

  // ---------- appending ----------

  /** What a failed write leaves at the end of the file. */
  datatype Leftover = Nothing | Fragment | WholeRecord

  datatype WriteOutcome = Written | NotEncoded | WriteFailed(left: Leftover) | SyncFailed

  /** The chain in memory. */
  datatype Memory = Memory(sequence: nat, head: string, traces: map<string, string>, failed: bool, open: bool)

  /** The durable file and the process, if one has the journal open. */
  datatype Journal = Journal(file: File, memory: Option<Memory>)

  /** The newest hash of each trace. */
  function TraceHeads(records: seq<Record>): map<string, string>
  {
    if records == [] then map[]
    else
      var last := records[|records| - 1];
      var before := TraceHeads(records[..|records| - 1]);
      if last.event.traceID != "" then before[last.event.traceID := last.hash] else before
  }

  /** Record i is the newest of its trace. */
  predicate Newest(records: seq<Record>, trace: string, i: nat)
  {
    && i < |records| && records[i].event.traceID == trace
    && forall j | i < j < |records| :: records[j].event.traceID != trace
  }

  /** Exactly the traces that have a name are held, each with the hash of its newest record. */
  lemma {:induction false} TraceHeadsExactly(records: seq<Record>, trace: string)
    ensures trace in TraceHeads(records) <==> trace != "" && exists i: nat :: Newest(records, trace, i)
    ensures forall i: nat | trace != "" && Newest(records, trace, i) :: TraceHeads(records)[trace] == records[i].hash
  {
    if records != [] {
      var last := |records| - 1;
      var before := records[..last];
      TraceHeadsExactly(before, trace);
      if records[last].event.traceID == trace {
        assert Newest(records, trace, last);
      } else {
        forall i: nat
          ensures Newest(records, trace, i) <==> Newest(before, trace, i)
        {
          assert i < last ==> before[i] == records[i];
          assert Newest(before, trace, i) ==> forall j | i < j < last :: before[j] == records[j];
          assert Newest(records, trace, i) ==> forall j | i < j < last :: before[j] == records[j];
        }
      }
    }
  }

  function Rebuilt(records: seq<Record>): Memory
  {
    Memory(|records|, Head(records), TraceHeads(records), false, true)
  }

  function NextRecord(hash: HashFunction, m: Memory, e: Event): Record
  {
    Record(m.sequence + 1, m.head, e, hash(m.sequence + 1, m.head, e))
  }

  /** Text glued to an unterminated line makes one line that is no record. */
  function AppendLine(f: File, r: Record): File
  {
    File(f.lines + [if f.tail.None? then Good(r) else Bad], None)
  }

  function AppendLeftover(f: File, r: Record, left: Leftover): File
  {
    match left
    case Nothing => f
    case Fragment => f.(tail := Some(Bad))
    case WholeRecord => f.(tail := Some(if f.tail.None? then Good(r) else Bad))
  }

  function LogMemory(m: Memory, r: Record): Memory
  {
    m.(sequence := r.sequence, head := r.hash,
       traces := if r.event.traceID != "" then m.traces[r.event.traceID := r.hash] else m.traces)
  }

  function AfterLog(hash: HashFunction, j: Journal, e: Event, o: WriteOutcome): Journal
  {
    if j.memory.None? || j.memory.value.failed then j
    else
      var m := j.memory.value;
      var r := NextRecord(hash, m, e);
      var broken := Some(m.(failed := true));
      if o.NotEncoded? || !m.open then j.(memory := broken)
      else match o
        case WriteFailed(left) => Journal(AppendLeftover(j.file, r, left), broken)
        case SyncFailed => Journal(AppendLine(j.file, r), broken)
        case _ => Journal(AppendLine(j.file, r), Some(LogMemory(m, r)))
  }

  /** NewFileChain: refused unless the whole file verifies. */
  ghost function AfterOpen(hash: HashFunction, j: Journal): Journal
  {
    if AcceptedLines(hash, Scanned(j.file)) then j.(memory := Some(Rebuilt(Records(Scanned(j.file)))))
    else j.(memory := None)
  }

  function AfterClose(j: Journal): Journal
  {
    if j.memory.None? then j else j.(memory := Some(j.memory.value.(open := false)))
  }

  datatype Step = Log(event: Event, outcome: WriteOutcome) | Close | Open | Crash

  ghost function After(hash: HashFunction, j: Journal, s: Step): Journal
  {
    match s
    case Log(e, o) => AfterLog(hash, j, e, o)
    case Close => AfterClose(j)
    case Open => AfterOpen(hash, j)
    case Crash => j.(memory := None)
  }

  /** The file ends in a complete record that lacks its newline. */
  predicate EndsUnterminated(f: File)
  {
    f.tail.Some? && f.tail.value.Good?
  }

  ghost predicate JournalInv(hash: HashFunction, j: Journal)
  {
    && AcceptedLines(hash, j.file.lines)
    && (j.memory.Some? && !j.memory.value.failed ==>
          j.file.tail.None? && j.memory.value == Rebuilt(Records(j.file.lines)).(open := j.memory.value.open))
    && (j.file.tail.Some? && j.file.tail.value.Good? ==> AcceptedLines(hash, Scanned(j.file)))
  }

  lemma AppendAccepted(hash: HashFunction, lines: seq<Line>, e: Event)
    requires AcceptedLines(hash, lines)
    ensures var r := NextRecord(hash, Rebuilt(Records(lines)), e);
      && AcceptedLines(hash, lines + [Good(r)])
      && LogMemory(Rebuilt(Records(lines)), r) == Rebuilt(Records(lines + [Good(r)]))
  {
    var records := Records(lines);
    var r := NextRecord(hash, Rebuilt(records), e);
    var longer := lines + [Good(r)];
    assert Records(longer) == records + [r];
    forall i: nat | i < |longer|
      ensures Links(hash, Records(longer), i)
    {
      if i < |lines| {
        assert Links(hash, records, i);
      }
    }
    assert (records + [r])[..|records|] == records;
  }

  lemma StepKeepsJournal(hash: HashFunction, j: Journal, s: Step)
    requires JournalInv(hash, j)
    requires s.Open? ==> !EndsUnterminated(j.file)
    ensures JournalInv(hash, After(hash, j, s))
  {
    if s.Log? && j.memory.Some? && !j.memory.value.failed {
      AppendAccepted(hash, j.file.lines, s.event);
    }
    if j.file.tail.None? {
      assert Scanned(j.file) == j.file.lines;
    } else {
      assert j.file.tail.value in Scanned(j.file);
    }
  }

  ghost function AfterAll(hash: HashFunction, j: Journal, steps: seq<Step>): Journal
  {
    if steps == [] then j else After(hash, AfterAll(hash, j, steps[..|steps| - 1]), steps[|steps| - 1])
  }

  /** No opening in the run meets a complete record left without its newline by a failed write. */
  ghost predicate CleanOpens(hash: HashFunction, j: Journal, steps: seq<Step>)
  {
    steps != [] ==>
      var before := steps[..|steps| - 1];
      CleanOpens(hash, j, before) && (steps[|steps| - 1].Open? ==> !EndsUnterminated(AfterAll(hash, j, before).file))
  }

  const NEW_JOURNAL := Journal(File([], None), None)

  /** After any sequence of appends, failures, crashes and reopenings the terminated lines are an
      accepted chain, and an unfailed process holds exactly their length, head and trace heads. */
  lemma {:induction false} JournalStaysAccepted(hash: HashFunction, steps: seq<Step>)
    requires CleanOpens(hash, NEW_JOURNAL, steps)
    ensures JournalInv(hash, AfterAll(hash, NEW_JOURNAL, steps))
  {
    if steps != [] {
      JournalStaysAccepted(hash, steps[..|steps| - 1]);
      StepKeepsJournal(hash, AfterAll(hash, NEW_JOURNAL, steps[..|steps| - 1]), steps[|steps| - 1]);
    }
  }

  /** HashForTrace, after any such sequence, in a process that has not failed: the hash of the last line
      of the trace, and nothing for a trace that has no line. */
  lemma HashOfEveryTrace(hash: HashFunction, steps: seq<Step>, trace: string)
    requires CleanOpens(hash, NEW_JOURNAL, steps)
    ensures var j := AfterAll(hash, NEW_JOURNAL, steps);
      && AcceptedLines(hash, j.file.lines)
      && (j.memory.Some? && !j.memory.value.failed ==>
            var lines, traces := j.file.lines, j.memory.value.traces;
            && (trace in traces <==>
                  trace != "" && exists i | 0 <= i < |lines| :: lines[i].record.event.traceID == trace)
            && (forall i | 0 <= i < |lines| && trace != "" && lines[i].record.event.traceID == trace
                  && (forall k | i < k < |lines| :: lines[k].record.event.traceID != trace) ::
                  traces[trace] == lines[i].record.hash))
  {
    JournalStaysAccepted(hash, steps);
    var lines := AfterAll(hash, NEW_JOURNAL, steps).file.lines;
    TraceHeadsExactly(Records(lines), trace);
    if exists i | 0 <= i < |lines| :: lines[i].record.event.traceID == trace {
      var i := NewestLine(Records(lines), trace);
    }
    forall i | 0 <= i < |lines| && lines[i].record.event.traceID == trace
        && forall k | i < k < |lines| :: lines[k].record.event.traceID != trace
      ensures Newest(Records(lines), trace, i)
    {
    }
  }

  lemma {:induction false} NewestLine(records: seq<Record>, trace: string) returns (i: nat)
    requires exists k | 0 <= k < |records| :: records[k].event.traceID == trace
    ensures Newest(records, trace, i)
  {
    var last := |records| - 1;
    if records[last].event.traceID == trace {
      i := last;
    } else {
      i := NewestLine(records[..last], trace);
    }
  }

  /** What one append does, for every answer of the file. Whatever goes wrong fails the chain for good,
      and a chain that has failed writes nothing; a record that was written but not synced is there. */
  lemma LogExactly(hash: HashFunction, j: Journal, e: Event, o: WriteOutcome)
    ensures var j' := After(hash, j, Log(e, o));
      && (j.memory.None? || j.memory.value.failed ==> j' == j)
      && (j.memory.Some? && !j.memory.value.failed ==>
            var m := j.memory.value;
            var r := Record(m.sequence + 1, m.head, e, hash(m.sequence + 1, m.head, e));
            var reaches := m.open && o != NotEncoded;
            && j'.memory.Some? && j'.memory.value.open == m.open
            && (j'.memory.value.failed <==> !(m.open && o == Written))
            && (!reaches || o.WriteFailed? ==> j'.file.lines == j.file.lines)
            && (!reaches || (o.WriteFailed? && o.left == Nothing) ==> j'.file == j.file)
            && (reaches && !o.WriteFailed? && j.file.tail == None ==> j'.file == File(j.file.lines + [Good(r)], None))
            && (m.open && o == Written ==>
                  && j'.memory.value.sequence == m.sequence + 1 && j'.memory.value.head == r.hash
                  && (forall t | t != e.traceID || t == "" ::
                        (t in j'.memory.value.traces <==> t in m.traces)
                        && (t in m.traces ==> j'.memory.value.traces[t] == m.traces[t]))
                  && (e.traceID != "" ==> e.traceID in j'.memory.value.traces)
                  && (e.traceID != "" ==> j'.memory.value.traces[e.traceID] == r.hash)))
  {
  }

  /** After a failure nothing reaches the file until it is opened again. */
  lemma {:induction false} FailureIsFinal(hash: HashFunction, j: Journal, steps: seq<Step>)
    requires j.memory.Some? ==> j.memory.value.failed
    requires forall s <- steps :: s != Open
    ensures AfterAll(hash, j, steps).file == j.file
    ensures AfterAll(hash, j, steps).memory.Some? ==> AfterAll(hash, j, steps).memory.value.failed
  {
    if steps != [] {
      var last := |steps| - 1;
      assert steps[last] in steps && forall s <- steps[..last] :: s in steps;
      FailureIsFinal(hash, j, steps[..last]);
    }
  }

  /** Reopening rebuilds exactly what an unfailed process held in memory. */
  lemma ReopenRebuildsMemory(hash: HashFunction, j: Journal)
    requires JournalInv(hash, j) && j.memory.Some? && !j.memory.value.failed
    ensures After(hash, j.(memory := None), Open).memory == Some(j.memory.value.(open := true))
  {
    assert Scanned(j.file) == j.file.lines;
  }

  /** The condition is exact: reopening on an unterminated record is accepted, and the next append
      then spoils the line, so that the journal is refused from there on. */
  lemma UnterminatedRecordIsGlued(hash: HashFunction, j: Journal, e: Event)
    requires JournalInv(hash, j)
    ensures var j' := After(hash, After(hash, j.(memory := None), Open), Log(e, Written));
      EndsUnterminated(j.file) ==> !AcceptedLines(hash, j'.file.lines) && After(hash, j', Open).memory.None?
    ensures var j' := After(hash, After(hash, j.(memory := None), Open), Log(e, Written));
      !EndsUnterminated(j.file) ==> JournalInv(hash, j')
  {
    var j1 := After(hash, j.(memory := None), Open);
    var j' := After(hash, j1, Log(e, Written));
    if EndsUnterminated(j.file) {
      assert Scanned(j'.file) == j'.file.lines;
      assert j'.file.lines[|j.file.lines|] == Bad;
      assert Bad in j'.file.lines;
    } else {
      StepKeepsJournal(hash, j.(memory := None), Open);
      StepKeepsJournal(hash, j1, Log(e, Written));
    }
  }

  lemma OneMoreStep(hash: HashFunction, j: Journal, steps: seq<Step>, s: Step)
    ensures AfterAll(hash, j, steps + [s]) == After(hash, AfterAll(hash, j, steps), s)
    ensures CleanOpens(hash, j, steps + [s])
       <==> CleanOpens(hash, j, steps) && (s.Open? ==> !EndsUnterminated(AfterAll(hash, j, steps).file))
  {
    assert (steps + [s])[..|steps|] == steps;
  }

  /** Such a file is reached: the first write of a new journal leaves its record and no newline. */
  lemma UnterminatedIsReached(hash: HashFunction, e: Event) returns (steps: seq<Step>)
    ensures CleanOpens(hash, NEW_JOURNAL, steps) && EndsUnterminated(AfterAll(hash, NEW_JOURNAL, steps).file)
  {
    var fail := Log(e, WriteFailed(WholeRecord));
    OneMoreStep(hash, NEW_JOURNAL, [], Open);
    OneMoreStep(hash, NEW_JOURNAL, [] + [Open], fail);
    steps := [] + [Open] + [fail];
    assert Scanned(NEW_JOURNAL.file) == [];
    assert AfterOpen(hash, NEW_JOURNAL).memory.Some?;
  }

  // ---------- the journal as the process works on it ----------

  class FileChain {
    const hash: HashFunction
    var file: File
    var sequence: nat
    var head: string
    var traceHashes: map<string, string>
    var failed: bool
    var open: bool

    ghost function Contents(): Journal
      reads this
    {
      Journal(file, Some(Memory(sequence, head, traceHashes, failed, open)))
    }

    constructor (hash: HashFunction, file: File)
      ensures this.hash == hash && this.file == file && failed && !open
    {
      this.hash, this.file := hash, file;
      sequence, head, traceHashes, failed, open := 0, "", map[], true, false;
    }

    /** NewFileChain: verify the whole file, then take its length, head and trace heads. */
    method OpenChain() returns (ok: bool)
      modifies this
      ensures file == old(file)
      ensures ok <==> AcceptedLines(hash, Scanned(file))
      ensures ok ==> Contents() == AfterOpen(hash, old(Contents()))
    {
      var lines := Scanned(file);
      var verified := Verify(hash, lines);
      if !verified.valid {
        return false;
      }
      assert lines[..|lines|] == lines;
      sequence, head, failed, open := verified.records, verified.headHash, false, true;
      LoadTraceHeads(lines);
      return true;
    }

    method LoadTraceHeads(lines: seq<Line>)
      requires forall l <- lines :: l.Good?
      modifies this`traceHashes
      ensures traceHashes == TraceHeads(Records(lines))
      ensures forall trace :: trace in traceHashes <==> trace != "" && exists i: nat :: Newest(Records(lines), trace, i)
      ensures forall trace, i: nat | trace != "" && Newest(Records(lines), trace, i) ::
        trace in traceHashes && traceHashes[trace] == lines[i].record.hash
    {
      traceHashes := map[];
      for i := 0 to |lines|
        invariant traceHashes == TraceHeads(Records(lines)[..i])
      {
        assert Records(lines)[..i + 1][..i] == Records(lines)[..i];
        var record := lines[i].record;
        if record.event.traceID != "" {
          traceHashes := traceHashes[record.event.traceID := record.hash];
        }
      }
      assert Records(lines)[..|lines|] == Records(lines);
      forall trace: string
        ensures trace in traceHashes <==> trace != "" && exists i: nat :: Newest(Records(lines), trace, i)
        ensures forall i: nat | trace != "" && Newest(Records(lines), trace, i) ::
          trace in traceHashes && traceHashes[trace] == lines[i].record.hash
      {
        TraceHeadsExactly(Records(lines), trace);
      }
    }

    method LogEvent(event: Event, o: WriteOutcome)
      modifies this
      ensures Contents() == AfterLog(hash, old(Contents()), event, o)
    {
      if failed {
        return;
      }
      var record := Record(sequence + 1, head, event, hash(sequence + 1, head, event));
      if o.NotEncoded? || !open {
        failed := true;
        return;
      }
      if o.WriteFailed? {
        file := AppendLeftover(file, record, o.left);
        failed := true;
        return;
      }
      file := AppendLine(file, record);
      if o.SyncFailed? {
        failed := true;
        return;
      }
      sequence, head := record.sequence, record.hash;
      if event.traceID != "" {
        traceHashes := traceHashes[event.traceID := record.hash];
      }
    }

    method CloseChain()
      modifies this`open
      ensures Contents() == AfterClose(old(Contents()))
    {
      open := false;
    }
  }
}
